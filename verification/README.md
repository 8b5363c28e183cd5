# LAMMPSReader frame decoder, modelled in Dafny

LAMMPSReader reads trajectory dump files written by the LAMMPS particle simulator.
A consumer opens a file, text or binary, and calls `ReadFrame` once per frame with a
field specification: the property names it wants, separated by spaces. For each frame
the reader calls the consumer's hooks in order: `StartOfTimestep`, `BoxBounds`, one
`AtomLine` per atom and `EndOfTimestep`. It also keeps the frame's timestep, atom
count, boundary letters and box bounds in public fields.

This project models the decoder as pure functions over immutable data:

- **State** (`state.dfy`). The reader is a `Reader` record. It holds:
  - whether a file is open, and in which mode;
  - the file's two views: its lines in text mode, its decoded frame records in binary mode;
  - a position in each view, and the text-mode end-of-file flag;
  - the public fields.

  A frame read returns a `ReadResult`:
  - the outcome: `Read` (true), `Failed(reason)` (false) or `Undefined`;
  - the hooks called, as a trace of `Event`s: `Start | BoxBounds | Atom | End`;
  - the reader after the read.

  `Init`, `Open` and `Close` model the constructor, `open` and `close`.
- **Tokenising** (`tokenize.dfy`). `Explode` is `explode`: it splits on the space
  character only.
- **Properties** (`properties.dfy`, `atoms.dfy`).
  - The thirty property tags and the sentinel, in the enum's order.
  - `StringToProperty`.
  - The atom record, as one typed slot per tag.
  - Text mode's slot writer `UpdateAtomData`, which has no slot for `mu`.
- **Periodic correction** (`periodic.dfy`). It is written once as `Wrap`. Text mode's
  branch chain is modelled as it stands in `TextCorrection`.
- **Text mode** (`textframe.dfy`). It is a line-by-line state machine:
  - `StepLine` dispatches one line;
  - `Run` and `Proceed` drive the loop;
  - `ReadTextFrame` is one call.

  The lemmas in `textchecks.dfy` and `textdump.dfy` describe what a read does. They
  cover each check that stops a read, and a whole frame as a LAMMPS writer prints it.
  `textrecord.dfy` states what an atom record built from a data line holds.
- **Binary mode** (`binaryframe.dfy`):
  - header checks;
  - boundary codes;
  - processor blocks grouped into atoms;
  - the atom-count check.
- **Hooks** (`sinks.dfy`). A consumer is a set of optional hook overrides. `Observe`
  maps a trace to what the overridden hooks see.
- **Entry point** (`reader.dfy`). `ReadFrame` dispatches on the mode.

The C library's `atoi` and `atof` are parameters: the `Conversions` record.

## Source quirks kept in the model

Each quirk is stated in a contract:

- **`zs` upper wrap.** In text mode the upper-side wrap for `zs` subtracts one from `z`
  and leaves `zs` alone. Binary mode corrects `zs`. See `TextCorrectionOfZs` and
  `ZsUpperWrapMissesZs`.
- **Binary atoms hold only their last field.** Binary mode zeroes a fresh record for
  every value read. So each atom it passes on holds only its group's last field. See
  `GroupRecordsHoldLastFieldOnly`.
- **`mu`.** `mu` is a known property name, but text mode's slot writer has no slot for
  it. So text mode refuses it, while binary mode accepts it. See `MuIsUnsupported` and
  `UpdateAtomDataWritesNamedSlot`.
- **Narrowing.** The binary timestep and atom count are narrowed from 64 to 32 bits
  (`Narrow32`). Integer slots in binary mode truncate toward zero.
- **Header state survives.**
  - A binary boundary code outside 0..3 keeps the letter held before.
  - A second text `ATOMS` header in one call adds to the columns already recorded.
  - A one-letter text boundary token gives NUL as its upper letter.
- **Indexing past the end.** A blank line, a bare `ITEM:` line, or a non-empty binary
  block read with zero fields indexes past the end of a list. The language leaves this
  undefined. The model does not exclude these inputs with a precondition: the reader
  accepts them, and blank value lines after a `TIMESTEP` or `NUMBER` tag are never
  dispatched. Instead the model gives them their own `Undefined` outcome, which the
  lemmas name.

## Model

| member | source | states |
|---|---|---|
| Tokenize.Explode | lammpsreader.cpp:33-50 | every token is non-empty and holds no space; a line without a space is one token, or none when empty |
| Tokenize.ExplodeSplitsAtSpace | lammpsreader.cpp:37-48 | one space splits a line into two halves tokenised independently; with `Explode`'s base case this fixes the tokens of every line |
| Tokenize.ExplodeKeepsContent | lammpsreader.cpp:33-50 | the tokens laid end to end are the line with its spaces removed, in order; tabs stay inside tokens |
| Tokenize.ExplodeJoin | lammpsreader.cpp:33-50 | tokenising tokens joined with single spaces gives them back |
| Tokenize.JoinExplodeNormalises | lammpsreader.cpp:33-50 | rejoining the tokens collapses runs of spaces and trims both ends, keeping every other character and the tokens |
| Properties.NameResolves | lammpsreader.cpp:507-540 | each of the thirty names resolves to its own tag |
| Properties.ResolvedNameMatches | lammpsreader.cpp:507-540 | a name that resolves to a data tag is that tag's name |
| Properties.UnknownNamesResolveToNull | lammpsreader.cpp:507-540 | exactly the strings that are no tag's name resolve to the sentinel |
| Properties.NamesDistinct | lammpsreader.cpp:509-538 | distinct tags have distinct names |
| Atoms.Set | lammpsreader.h:34-49 | writing one slot of the atom record sets that slot and leaves every other slot as it was |
| Atoms.AssignTargetIsResolution | lammpsreader.cpp:544-576 | the names text mode can assign are the known names other than `mu`, each to the slot it names |
| Atoms.UpdateAtomDataWritesNamedSlot | lammpsreader.cpp:544-576 | the writer succeeds exactly for known names other than `mu`; it stores `atoi` of the token in the six integer slots and `atof` in the others, and changes no other slot |
| Periodic.Wrap | lammpsreader.cpp:370-393 | at most one shift by the box length; a value inside the box, or any value on non-periodic sides, is kept; `hi` on a periodic upper side becomes `lo`; a value within one box length outside lands inside |
| Periodic.CorrectCoordinate | lammpsreader.cpp:370-435 | only `x y z xs ys zs` are corrected, each by at most one shift of its range's length (the box along its own axis, or the unit interval when scaled); a value inside its range, or on an axis with no periodic side, is kept; every other value passes through |
| Periodic.CorrectedCoordinateInRange | lammpsreader.cpp:370-417 | with both sides periodic, a coordinate read within one box length outside ends in its half-open range |
| Periodic.CorrectSlot | lammpsreader.cpp:394-417 | the intended correction changes only the named slot, to its corrected value |
| Periodic.TextCorrectionAgreesExceptZs | lammpsreader.cpp:218-242 | for every name but `zs`, text mode's branch chain is the intended correction of the slot the name resolves to |
| Periodic.TextCorrectionOfZs | lammpsreader.cpp:240-244 | for `zs`, the lower side is corrected as intended; the upper side leaves `zs` and lowers `z` by one |
| Periodic.ZsUpperWrapMissesZs | lammpsreader.cpp:242-243 | with `zs` read as 1.5 in a periodic box, text mode leaves `zs` at 1.5 and sets `z` to -1, where the intended result is 0.5 |
| State.Init | lammpsreader.cpp:52-63 | a fresh reader has timestep -1, no atoms, a zero box, every boundary letter `u`, and no file |
| State.Open | lammpsreader.cpp:69-85 | success exactly when the file opens, and then both views are at the start; on failure the old file stays closed; the public fields are kept either way |
| State.Close | lammpsreader.cpp:87-92 | closing forgets the file and its name and keeps the public fields |
| LammpsReader.OpenDefaultsToText | lammpsreader.h:74 | opening without a mode opens in text mode |
| LammpsReader.ReadFrame | lammpsreader.cpp:94-111 | with no file open, or at the end, the read is false and calls no hook; a true read ends with one `End`, has at most one `Start`, and moves on; a false one has no `End` |
| LammpsReader.ReadAfterClose | lammpsreader.cpp:87-103 | after a close every read is false and calls no hook |
| LammpsReader.TextReadAfterEnd | lammpsreader.cpp:108-111 | once a text read reaches the end of the file, every further read is false and calls no hook |
| TextFrame.AddColumns | lammpsreader.cpp:179-182 | every header name is recorded under the index of one of its occurrences, and entries for other names are kept |
| TextFrame.AddColumnsKeepsLast | lammpsreader.cpp:179-182 | a name given twice keeps its last index: no later header name repeats it |
| TextFrame.FirstMissing | lammpsreader.cpp:184-193 | no result exactly when every requested field is recorded; otherwise the first requested field, in order, that is not |
| TextFrame.BuildAtom | lammpsreader.cpp:208-245 | filling a record fails exactly when some requested field has no assignable slot, and then names such a field |
| TextRecord.StoreOneField | lammpsreader.cpp:210-244 | storing one field puts its token, converted by the slot's kind and corrected, in its slot and changes no other; for `zs` only the lower wrap applies to `zs` and the upper wrap lowers `z` by one |
| TextRecord.AssignTargetInjective | lammpsreader.cpp:544-576 | no two names are stored in the same slot |
| TextRecord.BuildAtomFills | lammpsreader.cpp:208-245 | when no field is refused, each requested field's slot holds its token converted and corrected (for `zs`, lower wrap only), `z` drops by one per `zs` request when the `zs` upper wrap fires and `z` is not requested, and every slot no field names keeps its value |
| TextRecord.RowRecord | lammpsreader.cpp:198-245 | a data line's record starts zeroed, so every slot no requested field names is zero |
| TextRecord.WrappedRowsExample | lammpsreader.cpp:220-223 | with x periodic in a box from 0 to 10, a row with x 11.0 gives x 1.0 and one with -1.0 gives 9.0, all other slots zero |
| TextFrame.ReadBoundsEnds | lammpsreader.cpp:164-175 | reading the bounds lines stops early only at the end of the file, and fails only at a line of fewer than two tokens, which it consumes |
| TextFrame.ReadBoundsFailsAt | lammpsreader.cpp:164-171 | a line of fewer than two tokens after complete lines fails the reading just after it |
| TextFrame.ReadBoundsKeeps | lammpsreader.cpp:164-175 | axes that no line reached, and the axis of a failing line, keep their bounds |
| TextFrame.ReadBoundsSets | lammpsreader.cpp:164-175 | each complete bounds line sets its axis from its first two tokens |
| TextFrame.StepLine | lammpsreader.cpp:120-249 | each line either hands on a consistent scan, having consumed the line and only added hooks, or stops; a true stop is a second `TIMESTEP` tag, adds `End` and leaves the reader on that tag |
| TextFrame.Run | lammpsreader.cpp:120-254 | a read keeps the file, never moves back, and only adds hooks; a true return ends with its one `End`, has at most one `Start`, and rests at the end of the file or on the next frame's tag |
| TextFrame.ReadTextFrame | lammpsreader.cpp:108-255 | at the end of the file the read is false with no hook; otherwise a true read ends with one `End` showing the stored timestep, has at most one `Start`, and moves to the end of the file or onto the next frame's tag |
| TextChecks.RunAtBlankLine | lammpsreader.cpp:123-124 | a line with no token has an undefined outcome |
| TextChecks.RunAtBareTag | lammpsreader.cpp:124-126 | a line whose only token is `ITEM:` has an undefined outcome |
| TextChecks.RunAtTimestepWithoutValue | lammpsreader.cpp:134-142 | a first `TIMESTEP` tag on the last line fires `Start` and then fails at the end of the file |
| TextChecks.RunAtNumberWithoutValue | lammpsreader.cpp:143-150 | an atom-count tag on the last line fails at the end of the file with no hook |
| TextChecks.RunAtShortBoxTag | lammpsreader.cpp:151-156 | a box tag line of fewer than six tokens fails, with no hook and the box unchanged |
| TextChecks.RunAtShortBoundsLine | lammpsreader.cpp:158-171 | a bounds line of fewer than two tokens fails just after it, with no `BoxBounds`, though the boundary letters are already stored |
| TextChecks.RunAtColumnCountMismatch | lammpsreader.cpp:203-206 | a data line whose token count differs from the columns named fails, with no `Atom`; before any header every data line does |
| TextChecks.RunSkipsOtherTags | lammpsreader.cpp:124-195 | tags other than the four known ones are skipped |
| TextDump.RunAtFirstTimestep | lammpsreader.cpp:133-138 | the first `TIMESTEP` tag fires `Start` with the previous timestep and stores the next line's value |
| TextDump.RunAtFrameEnd | lammpsreader.cpp:127-132 | inside a frame, the next `TIMESTEP` tag or the end of the file fires `End` and returns true, staying in front of the tag |
| TextDump.RunAtNumber | lammpsreader.cpp:143-147 | an atom-count tag stores the next line's value and nothing else |
| TextDump.RunAtBox | lammpsreader.cpp:151-176 | a complete box tag and three bounds lines store the box and fire `BoxBounds` with it |
| TextDump.RunAtMissingColumn | lammpsreader.cpp:184-193 | a header lacking a requested field fails, naming the first such field, with no hook |
| TextDump.RunAtRow | lammpsreader.cpp:196-249 | a data row of the right width fires `Atom` with the record built from its tokens |
| TextDump.RunAtUnsupportedField | lammpsreader.cpp:209-216 | a row, when a requested field has no assignable slot, fails with no `Atom`, naming such a field |
| TextDump.MuIsUnsupported | lammpsreader.cpp:538-575 | `mu` is a property name, but text mode cannot assign it |
| TextDump.RunOverRows | lammpsreader.cpp:196-254 | the rows up to the end of the file or the next tag fire one `Atom` each, in order, then `End` |
| TextDump.ReadWholeFrame | lammpsreader.cpp:94-255 | a whole frame fires `Start` with the previous timestep, `BoxBounds` with its box, one `Atom` per row and `End` with its timestep; it stores the frame's timestep, count and box; the atom count is never checked against the rows |
| TextDump.ReadRenderedFrame | lammpsreader.cpp:94-255 | a frame as printed by a writer, followed by the end of the file or another frame, reads back to its content |
| TextDump.FrameAtomsHoldRows | lammpsreader.cpp:196-248 | the atoms passed on for a frame are its rows in order, each the zeroed record holding that row's requested fields |
| TextDump.ReadRenderedRows | lammpsreader.cpp:196-248 | reading a printed frame passes on, after `Start` and `BoxBounds`, one `Atom` per row whose record holds that row's requested fields, converted and corrected, and zero elsewhere |
| TextDump.ReadTwoFrames | lammpsreader.cpp:127-132 | two printed frames are read by two calls; the second call's `Start` shows the first frame's timestep, and the second ends the file |
| BinaryFrame.Narrow32Unique | lammpsreader.cpp:263-266 | the narrowed header value is the one 32-bit value congruent to the stored value |
| BinaryFrame.Narrow32Keeps | lammpsreader.cpp:263-266 | a value that fits in 32 bits is kept |
| BinaryFrame.TruncateTowardZero | lammpsreader.cpp:355 | the integer conversion drops the fraction toward zero, for either sign |
| BinaryFrame.CodeLetterKeepsOrSets | lammpsreader.cpp:274-295 | codes 0..3 set `p f s m`; any other code keeps the previous letter |
| BinaryFrame.DecodeEncodeBox | lammpsreader.cpp:297-307 | header values in the order `xlo xhi ylo yhi zlo zhi` decode to the box they encode |
| BinaryFrame.ResolveFields | lammpsreader.cpp:316-324 | all fields resolve exactly when every name is known, each to its tag; otherwise an unknown name is reported |
| BinaryFrame.StoreValue | lammpsreader.cpp:357-483 | a value goes into its slot, truncated for integer slots and periodically corrected for wrapped coordinates; no other slot changes |
| BinaryFrame.BlockAtomsAreGroups | lammpsreader.cpp:346-491 | the loop over one block passes on one record per whole group of values |
| BinaryFrame.GroupCount | lammpsreader.cpp:349-491 | a block of `m` values gives `m / fields` atoms: a trailing partial group is dropped |
| BinaryFrame.GroupRecordsHoldLastFieldOnly | lammpsreader.cpp:351-352 | each record passed on is zero in every slot but the group's last field |
| BinaryFrame.DecodeBlocksAreGroups | lammpsreader.cpp:346-492 | the atoms are the whole groups of each block in turn, the counter restarting at each block |
| BinaryFrame.ReadBinaryFrame | lammpsreader.cpp:257-505 | the read moves one record on and stores the narrowed timestep and count; a rejected header calls no hook; an accepted one fires `Start` and `BoxBounds` first; a true read ends with one `End` |
| BinaryFrame.BinaryHeaderFailures | lammpsreader.cpp:258-340 | the header checks fail in order, each with no hook: triclinic, field count as unsigned, unknown name, failed read |
| BinaryFrame.BinaryFrameBody | lammpsreader.cpp:343-504 | after an accepted header the read is true, firing `End`, exactly when the whole-group total equals the header count; otherwise the `Atom` calls made stand |
| BinaryFrame.BinaryFrameWithoutFields | lammpsreader.cpp:349-357 | with no field, a non-empty block is undefined; with only empty blocks the read is true exactly when the count is zero |
| Sinks.DefaultObservesNothing | lammpsreader.h:53-59 | a consumer overriding no hook observes nothing |
| Sinks.ObserveAppend | lammpsreader.h:53-59 | hooks observe consecutive calls one after the other |
| Sinks.FullSinkObservesEveryCall | lammpsreader.h:53-59 | a consumer overriding every hook observes once per call |
| Sinks.AtomSinkObservesAtoms | lammpsreader.h:55 | a consumer overriding only `AtomLine` observes each atom passed on, once and in the order passed |

## Left out

- File I/O: `std::ifstream`, `getline`, `tellg`/`seekg`, and the open-failure cause. A
  text file is its list of lines plus a position. Rewinding is staying on the tag's
  index. The model assumes every line ends in a newline, so the end-of-file flag is set
  only by a read that finds no line.
- The native-byte-order unions and raw byte reads. A binary file is a list of decoded
  frame records. A failed header read is one `headerOk` flag. A
  negative processor or block count is an empty list.
- The stream position after a binary header failure. The source stops mid-record; the
  model moves on to the next record.
- The internals of `atoi` and `atof`, and IEEE double rounding. Conversions are
  parameters, and reals are exact. A double outside the `int` range, converted to an
  integer slot, is undefined in the language; the model truncates it without bound.
- The unchecked reads of the binary atom section. The source tests the stream once,
  after the header (lammpsreader.cpp:337). The block sizes and values read at lines
  347 and 353 are used whether or not those reads succeed, so a truncated atom section
  is processed with whatever the buffers last held. A frame record holds whole blocks,
  so the model has no truncated section.
- The reader pointer every hook receives (lammpsreader.h:55-58). Through it a hook can
  read the public fields at the moment of the call, such as the atom count. An event
  carries only its own argument: the timestep, the box or the record. The fields a read
  leaves stored are in the reader the read returns, but not their values at each call.
- `BinaryFrame.ReadBinaryFrame`: does not model the 32-bit `atoms_total` counter
  overflowing. The total is an unbounded count.
- Diagnostics written to `std::cerr`, and the `new`/`delete` of the field array.
- The destructor. It only closes the file.
- The namespace mismatch between the header and the implementation. It is a build
  matter, not behaviour.
- The `density_profile` example program. It is a consumer of the reader, not part of
  the decoder.
- `TextRecord.BuildAtomFills`: does not state the `z` slot when both `z` and `zs` are
  requested. It then depends on the order of the two in the request: the `zs` upper
  wrap lowers whatever `z` holds at that point.
- `TextDump.ReadRenderedFrame`: states the read of frames in the layout a LAMMPS
  writer prints: tags, values and one row per line, single-spaced. A file with other
  spacing reads the same only by the tokenising lemmas, not by this lemma.
