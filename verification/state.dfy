/** The reader's state, what one frame read reports, and the file a reader has open.
    The open file is held as the two views the reader can take of its bytes: a list
    of lines in text mode and a list of frame records in binary mode. */
module State {
  import opened Wrappers
  import opened Atoms
  import opened Periodic

  /** One call of the consumer's hooks, in the order the reader makes them. `Start`
      and `End` carry the timestep the reader shows at the moment of the call. */
  datatype Event =
    | Start(tstep: int)
    | BoxBounds(box: Box)
    | Atom(atom: AtomData)
    | End(tstep: int)

  /** Why a frame read returns false. */
  datatype Reason =
    | NotOpen
    | AtEnd
    | MissingTimestepValue
    | MissingAtomCount
    | MalformedBoxHeader
    | MalformedBoundsLine
    | MissingColumn(name: string)
    | ColumnCountMismatch
    | UnsupportedProperty(name: string)
    | Triclinic
    | FieldCountMismatch
    | UnknownField(name: string)
    | CorruptHeader
    | AtomCountMismatch(total: int)

  /** `Read` is a true return; `Undefined` is an input on which the reader indexes past
      the end of a token list, which the language leaves undefined. */
  datatype Outcome = Read | Failed(why: Reason) | Undefined

  /** The six boundary codes of a binary header. */
  type Codes = s: seq<int> | |s| == 6 witness [0, 0, 0, 0, 0, 0]

  /** The six box values of a binary header. */
  type Bounds6 = s: seq<real> | |s| == 6 witness [0.0, 0.0, 0.0, 0.0, 0.0, 0.0]

  /** One frame of a binary dump, as the reads of its header and atom section yield it:
      the timestep and atom count as stored (64-bit), the triclinic flag, six boundary
      codes (lower then upper, x then y then z), six box values (x low, x high, y low,
      y high, z low, z high), the field count, whether every header read succeeded,
      and one list of values per processor block. */
  datatype BinRecord = BinRecord(
    tstep: int,
    natoms: int,
    triclinic: int,
    codes: Codes,
    bounds: Bounds6,
    fieldsPerAtom: int,
    headerOk: bool,
    blocks: seq<seq<real>>)

  /** A file's bytes as lines (text mode) and as frame records (binary mode). */
  datatype Contents = Contents(lines: seq<string>, records: seq<BinRecord>)

  /** The reader: whether a file is open and in which mode, the file's name, the
      position in each view of the open file, the end-of-file flag of text mode, and
      the public fields a consumer can inspect. */
  datatype Reader = Reader(
    isOpen: bool,
    binary: bool,
    curfile: string,
    contents: Contents,
    pos: nat,
    eof: bool,
    next: nat,
    lastTstep: int,
    nAtoms: int,
    box: Box)

  /** Positions never run past the end of their view. */
  predicate Valid(r: Reader) {
    r.pos <= |r.contents.lines| && r.next <= |r.contents.records|
  }

  /** `r'` has the same file open, in the same mode, as `r`. */
  predicate SameFile(r: Reader, r': Reader) {
    && r'.isOpen == r.isOpen && r'.binary == r.binary
    && r'.curfile == r.curfile && r'.contents == r.contents
  }

  /** The result of one frame read: the outcome, the hooks called, and the reader after. */
  datatype ReadResult = ReadResult(outcome: Outcome, trace: seq<Event>, reader: Reader)

  /** The fresh reader: no file, timestep -1, no atoms, zero box and every boundary
      letter `u`. */
  function Init(): (r: Reader)
    ensures Valid(r) && !r.isOpen
    ensures r.lastTstep == -1 && r.nAtoms == 0
    ensures forall i :: 0 <= i < 3 ==> r.box.lo[i] == 0.0 && r.box.hi[i] == 0.0
    ensures forall i :: 0 <= i < 3 ==> r.box.boundaries[i] == Sides('u', 'u')
  {
    Reader(false, false, "", Contents([], []), 0, false, 0, -1, 0,
      Box([Sides('u', 'u'), Sides('u', 'u'), Sides('u', 'u')], [0.0, 0.0, 0.0], [0.0, 0.0, 0.0]))
  }

  /** Open a file, closing the one already open. `file` is `None` when the file cannot
      be opened: the old file stays closed and the result is false. On success both
      views start at the beginning and the end-of-file flag is clear. The public
      fields are kept either way. */
  function Open(r: Reader, name: string, file: Option<Contents>, bin: bool := false): (res: (bool, Reader))
    ensures res.0 <==> file.Some?
    ensures res.0 ==>
      && res.1.isOpen && res.1.binary == bin && res.1.curfile == name
      && res.1.contents == file.value && res.1.pos == 0 && res.1.next == 0 && !res.1.eof
    ensures !res.0 ==> !res.1.isOpen && res.1.binary == r.binary && res.1.curfile == r.curfile
    ensures Valid(res.1)
    ensures res.1.lastTstep == r.lastTstep && res.1.nAtoms == r.nAtoms && res.1.box == r.box
  {
    match file
    case None => (false, r.(isOpen := false, contents := Contents([], []), pos := 0, next := 0))
    case Some(c) => (true, r.(isOpen := true, binary := bin, curfile := name, contents := c, pos := 0, eof := false, next := 0))
  }

  /** Close the open file, if any, and forget its name. */
  function Close(r: Reader): (r': Reader)
    ensures !r'.isOpen && r'.curfile == ""
    ensures Valid(r')
    ensures r'.lastTstep == r.lastTstep && r'.nAtoms == r.nAtoms && r'.box == r.box
  {
    r.(isOpen := false, curfile := "", contents := Contents([], []), pos := 0, next := 0)
  }

  /** No `End` in the trace. */
  predicate NoEnd(t: seq<Event>) {
    forall i :: 0 <= i < |t| ==> !t[i].End?
  }

  /** No `Start` in the trace. */
  predicate NoStart(t: seq<Event>) {
    forall i :: 0 <= i < |t| ==> !t[i].Start?
  }

  /** `Start` occurs at most once. */
  predicate AtMostOneStart(t: seq<Event>) {
    forall i, j :: 0 <= i < j < |t| ==> !(t[i].Start? && t[j].Start?)
  }

  /** `t` begins with `p`. */
  predicate Extends(t: seq<Event>, p: seq<Event>) {
    |p| <= |t| && t[..|p|] == p
  }

  /** The trace of a true return: `End` occurs exactly once, as the last event. */
  predicate EndsOnce(t: seq<Event>) {
    |t| > 0 && t[|t| - 1].End? && NoEnd(t[..|t| - 1])
  }
}
