/** Text dump frames as a LAMMPS writer lays them out, and what one text-mode read
    makes of such a frame. */
module TextDump {
  import opened Tokenize
  import opened Properties
  import opened Atoms
  import opened Periodic
  import opened State
  import opened TextFrame
  import opened TextRecord

  /** The content of one text frame: the timestep and atom-count lines as written,
      the three boundary tokens, each axis's bound tokens, the column names, and the
      rows of tokens. */
  datatype DumpFrame = DumpFrame(
    tstep: string,
    natoms: string,
    sides: seq<string>,
    bounds: seq<(string, string)>,
    header: seq<string>,
    rows: seq<seq<string>>)

  predicate IsTokenList(ts: seq<string>) {
    forall i :: 0 <= i < |ts| ==> IsToken(ts[i])
  }

  /** A data row: tokens, the first of which is not a tag. */
  predicate IsRow(row: seq<string>) {
    IsTokenList(row) && (|row| > 0 ==> row[0] != "ITEM:")
  }

  /** A frame a writer can produce: three boundary tokens, three pairs of bound
      tokens, at least one column, and rows as wide as the header. */
  predicate WellFormed(f: DumpFrame) {
    && HasBox(f)
    && |f.header| > 0 && IsTokenList(f.header)
    && RowsFit(f.rows, |f.header|)
  }

  /** Every row is a data row of `width` tokens. */
  predicate RowsFit(rows: seq<seq<string>>, width: nat)
    decreases |rows|
  {
    rows != [] ==> |rows[0]| == width && IsRow(rows[0]) && RowsFit(rows[1..], width)
  }

  /** The lines from `pos` on split into the tokens of `rows`, one row per line. */
  predicate RowsAt(lines: seq<string>, pos: nat, rows: seq<seq<string>>)
    decreases |rows|
  {
    pos + |rows| <= |lines| && (rows != [] ==> Explode(lines[pos]) == rows[0] && RowsAt(lines, pos + 1, rows[1..]))
  }

  const TimestepTag: seq<string> := ["ITEM:", "TIMESTEP"]
  const NumberTag: seq<string> := ["ITEM:", "NUMBER", "OF", "ATOMS"]
  const BoxTag: seq<string> := ["ITEM:", "BOX", "BOUNDS"]
  const AtomsTag: seq<string> := ["ITEM:", "ATOMS"]

  /** The lines of the data rows. */
  function RenderRows(rows: seq<seq<string>>): (lines: seq<string>)
    ensures |lines| == |rows| && forall k :: 0 <= k < |rows| ==> lines[k] == Join(rows[k])
  {
    if rows == [] then [] else [Join(rows[0])] + RenderRows(rows[1..])
  }

  /** The lines of a frame: timestep tag and value, atom-count tag and value, box tag
      with the boundary tokens, one bounds line per axis, the atoms header, the rows. */
  function Render(f: DumpFrame): (lines: seq<string>)
    requires |f.bounds| == 3
    ensures |lines| == 9 + |f.rows|
  {
    [Join(TimestepTag), f.tstep, Join(NumberTag), f.natoms, Join(BoxTag + f.sides),
     Join([f.bounds[0].0, f.bounds[0].1]), Join([f.bounds[1].0, f.bounds[1].1]),
     Join([f.bounds[2].0, f.bounds[2].1]), Join(AtomsTag + f.header)]
    + RenderRows(f.rows)
  }

  /** The box part of a frame: three boundary tokens and three pairs of bound tokens. */
  predicate HasBox(f: DumpFrame) {
    && |f.sides| == 3 && IsTokenList(f.sides)
    && |f.bounds| == 3 && (forall a :: 0 <= a < 3 ==> IsToken(f.bounds[a].0) && IsToken(f.bounds[a].1))
  }

  /** The box a frame describes, as the reader converts it. */
  function FrameBox(f: DumpFrame, conv: Conversions): Box
    requires HasBox(f)
  {
    var s := f.sides;
    Box([Sides(Letter(s[0], 0), Letter(s[0], 1)), Sides(Letter(s[1], 0), Letter(s[1], 1)),
         Sides(Letter(s[2], 0), Letter(s[2], 1))],
        [conv.atof(f.bounds[0].0), conv.atof(f.bounds[1].0), conv.atof(f.bounds[2].0)],
        [conv.atof(f.bounds[0].1), conv.atof(f.bounds[1].1), conv.atof(f.bounds[2].1)])
  }

  /** The column index of each header name. */
  function HeaderColumns(header: seq<string>): (c: map<string, int>)
    ensures forall k :: k in c <==> k in header
    ensures forall k :: k in header ==> 0 <= c[k] < |header| && header[c[k]] == k
  {
    AddColumns(map[], header, 0)
  }

  /** Every requested field can be stored by text mode. */
  predicate Assignable(args: seq<string>) {
    forall a :: a in args ==> AssignTarget(a) != NullProperty
  }

  /** One `Atom` event per row, each the record built from that row. */
  function RowEvents(rows: seq<seq<string>>, args: seq<string>, columns: map<string, int>, width: nat, box: Box, conv: Conversions)
    : (t: seq<Event>)
    requires RowsFit(rows, width)
    requires forall a :: a in args ==> a in columns && 0 <= columns[a] < width
    requires Assignable(args)
    ensures |t| == |rows|
    ensures forall k :: 0 <= k < |rows| ==>
      |rows[k]| == width && t[k] == Atom(BuildAtom(Zero(), args, columns, rows[k], box, conv).value)
    decreases |rows|
  {
    if rows == [] then []
    else [Atom(BuildAtom(Zero(), args, columns, rows[0], box, conv).value)] + RowEvents(rows[1..], args, columns, width, box, conv)
  }

  /** The atoms a read passes on for a frame's rows. */
  function FrameAtoms(f: DumpFrame, args: seq<string>, conv: Conversions): seq<Event>
    requires WellFormed(f) && Assignable(args) && forall a :: a in args ==> a in f.header
  {
    RowEvents(f.rows, args, HeaderColumns(f.header), |f.header|, FrameBox(f, conv), conv)
  }

  /** The `Atom` record `ad` holds row `k` of a frame: it is the zeroed record with the
      requested fields of the row stored as text mode stores them. */
  predicate HoldsRow(ad: AtomData, f: DumpFrame, args: seq<string>, k: nat, conv: Conversions)
    requires WellFormed(f) && Requestable(f, args) && k < |f.rows|
  {
    && |f.rows[k]| == |f.header|
    && Filled(Zero(), ad, args, HeaderColumns(f.header), f.rows[k], FrameBox(f, conv), conv)
  }

  /** The atoms a read passes on for a frame are its rows, in order, each holding what
      its row says. */
  lemma FrameAtomsHoldRows(f: DumpFrame, args: seq<string>, conv: Conversions)
    requires WellFormed(f) && Requestable(f, args)
    ensures var atoms := FrameAtoms(f, args, conv);
      && |atoms| == |f.rows|
      && forall k :: 0 <= k < |f.rows| ==> atoms[k].Atom? && HoldsRow(atoms[k].atom, f, args, k, conv)
  {
    var columns, box := HeaderColumns(f.header), FrameBox(f, conv);
    var atoms := FrameAtoms(f, args, conv);
    forall k | 0 <= k < |f.rows|
      ensures atoms[k].Atom? && HoldsRow(atoms[k].atom, f, args, k, conv)
    {
      assert |f.rows[k]| == |f.header| && atoms[k] == Atom(BuildAtom(Zero(), args, columns, f.rows[k], box, conv).value);
      RowRecord(args, columns, f.rows[k], box, conv);
    }
  }

  lemma TagsAreTokens()
    ensures IsTokenList(TimestepTag) && IsTokenList(NumberTag) && IsTokenList(BoxTag) && IsTokenList(AtomsTag)
  {
    assert IsToken("ITEM:") && IsToken("TIMESTEP") && IsToken("NUMBER") && IsToken("OF");
    assert IsToken("ATOMS") && IsToken("BOX") && IsToken("BOUNDS");
  }

  /** The first `TIMESTEP` tag of a call fires `Start` with the previous timestep and
      reads the new one from the next line. */
  lemma StepAtFirstTimestep(r: Reader, args: seq<string>, conv: Conversions, s: Scan)
    requires Valid(r) && !r.eof && Consistent(s, args) && !s.inside
    requires r.pos + 1 < |r.contents.lines| && Explode(r.contents.lines[r.pos]) == TimestepTag
    ensures StepLine(r, args, conv, s)
      == Continue(r.(lastTstep := conv.atoi(r.contents.lines[r.pos + 1]), pos := r.pos + 2),
                  s.(inside := true, trace := s.trace + [Start(r.lastTstep)]))
  {
  }

  /** An atom-count tag reads the count from the next line. */
  lemma StepAtNumber(r: Reader, args: seq<string>, conv: Conversions, s: Scan)
    requires Valid(r) && !r.eof && Consistent(s, args)
    requires r.pos + 1 < |r.contents.lines| && Explode(r.contents.lines[r.pos]) == NumberTag
    ensures StepLine(r, args, conv, s)
      == Continue(r.(nAtoms := conv.atoi(r.contents.lines[r.pos + 1]), pos := r.pos + 2), s)
  {
    StepLineAtTag(r, args, conv, s, NumberTag);
  }

  /** Three bounds lines of two tokens each set the three axes. */
  lemma ReadThreeBounds(lines: seq<string>, pos: nat, lo: Real3, hi: Real3, conv: Conversions,
                        x0: string, y0: string, x1: string, y1: string, x2: string, y2: string)
    requires pos + 3 <= |lines|
    requires Explode(lines[pos]) == [x0, y0]
    requires Explode(lines[pos + 1]) == [x1, y1]
    requires Explode(lines[pos + 2]) == [x2, y2]
    ensures ReadBounds(lines, pos, 0, lo, hi, conv)
      == Bounds(true, [conv.atof(x0), conv.atof(x1), conv.atof(x2)], [conv.atof(y0), conv.atof(y1), conv.atof(y2)], pos + 3)
  {
    var lo1: Real3 := lo[0 := conv.atof(x0)];
    var hi1: Real3 := hi[0 := conv.atof(y0)];
    var lo2: Real3 := lo1[1 := conv.atof(x1)];
    var hi2: Real3 := hi1[1 := conv.atof(y1)];
    assert ReadBounds(lines, pos, 0, lo, hi, conv) == ReadBounds(lines, pos + 1, 1, lo1, hi1, conv);
    assert ReadBounds(lines, pos + 1, 1, lo1, hi1, conv) == ReadBounds(lines, pos + 2, 2, lo2, hi2, conv);
    assert lo2[2 := conv.atof(x2)] == [conv.atof(x0), conv.atof(x1), conv.atof(x2)];
    assert hi2[2 := conv.atof(y2)] == [conv.atof(y0), conv.atof(y1), conv.atof(y2)];
  }

  /** A line whose first two tokens are `ITEM:` and a tag other than `TIMESTEP` and
      `NUMBER` is dispatched by its tag. */
  lemma StepLineAtTag(r: Reader, args: seq<string>, conv: Conversions, s: Scan, v: seq<string>)
    requires Valid(r) && !r.eof && r.pos < |r.contents.lines| && Consistent(s, args)
    requires Explode(r.contents.lines[r.pos]) == v && |v| >= 2 && v[0] == "ITEM:"
    ensures v[1] == "NUMBER" ==> StepLine(r, args, conv, s) == NumberItem(r, s, args, conv)
    ensures v[1] == "BOX" ==> StepLine(r, args, conv, s) == BoxItem(r, v, s, args, conv)
    ensures v[1] == "ATOMS" ==> StepLine(r, args, conv, s) == AtomsItem(r, v, s, args)
  {
    assert "NUMBER" != "TIMESTEP";
    assert "BOX" != "TIMESTEP" && "BOX" != "NUMBER";
    assert "ATOMS" != "TIMESTEP" && "ATOMS" != "NUMBER" && "ATOMS" != "BOX";
  }

  /** A frame's `BOX BOUNDS` tag line is six tokens. */
  lemma BoxTagTokens(f: DumpFrame)
    requires HasBox(f)
    ensures var v := BoxTag + f.sides;
      && |v| == 6 && (forall i :: 0 <= i < |v| ==> IsToken(v[i]))
      && (forall i :: 0 <= i < |v| ==> |v[i]| > 0)
  {
    TagsAreTokens();
    var v := BoxTag + f.sides;
    forall i | 0 <= i < |v| ensures IsToken(v[i]) {
      if i >= 3 { assert v[i] == f.sides[i - 3]; }
    }
  }

  /** The boundary letters of a frame's `BOX BOUNDS` tag are those of its box. */
  lemma SidesOfFrame(f: DumpFrame, conv: Conversions)
    requires HasBox(f)
    ensures var v := BoxTag + f.sides;
      && |v| == 6 && (forall i :: 0 <= i < |v| ==> IsToken(v[i]))
      && (forall i :: 0 <= i < |v| ==> |v[i]| > 0)
      && HeaderSides(v) == FrameBox(f, conv).boundaries
  {
    BoxTagTokens(f);
    var v := BoxTag + f.sides;
    assert v[3] == f.sides[0] && v[4] == f.sides[1] && v[5] == f.sides[2];
  }

  /** A box tag of six tokens whose three bounds lines read completely stores the box
      they describe and fires `BoxBounds` with it. */
  lemma BoxItemReads(r: Reader, v: seq<string>, s: Scan, args: seq<string>, conv: Conversions, lo: Real3, hi: Real3)
    requires Valid(r) && !r.eof && r.pos < |r.contents.lines| && Consistent(s, args)
    requires |v| == 6 && forall i :: 0 <= i < |v| ==> IsToken(v[i]) && |v[i]| > 0
    requires r.pos + 1 <= |r.contents.lines|
    requires ReadBounds(r.contents.lines, r.pos + 1, 0, r.box.lo, r.box.hi, conv) == Bounds(true, lo, hi, r.pos + 4)
    ensures BoxItem(r, v, s, args, conv)
      == Continue(r.(box := Box(HeaderSides(v), lo, hi), pos := r.pos + 4), s.(trace := s.trace + [BoxBounds(Box(HeaderSides(v), lo, hi))]))
  {
  }

  /** A `BOX BOUNDS` tag with the frame's boundary tokens, followed by its three
      bounds lines. */
  lemma BoxItemOfFrame(r: Reader, args: seq<string>, conv: Conversions, s: Scan, f: DumpFrame)
    requires Inside(r, s, args) == true && HasBox(f) == true
    requires BoxLinesAt(r.contents.lines, r.pos, f) == true
    ensures forall i :: 0 <= i < |BoxTag + f.sides| ==> IsToken((BoxTag + f.sides)[i])
    ensures BoxItem(r, BoxTag + f.sides, s, args, conv)
      == Continue(r.(box := FrameBox(f, conv), pos := r.pos + 4), s.(trace := s.trace + [BoxBounds(FrameBox(f, conv))]))
  {
    var b := f.bounds;
    var v := BoxTag + f.sides;
    var lo: Real3 := [conv.atof(b[0].0), conv.atof(b[1].0), conv.atof(b[2].0)];
    var hi: Real3 := [conv.atof(b[0].1), conv.atof(b[1].1), conv.atof(b[2].1)];
    SidesOfFrame(f, conv);
    ReadThreeBounds(r.contents.lines, r.pos + 1, r.box.lo, r.box.hi, conv, b[0].0, b[0].1, b[1].0, b[1].1, b[2].0, b[2].1);
    BoxItemReads(r, v, s, args, conv, lo, hi);
    assert Box(HeaderSides(v), lo, hi) == FrameBox(f, conv);
  }

  /** A `BOX BOUNDS` tag followed by three bounds lines stores the frame's box and
      fires `BoxBounds` with it. */
  lemma StepAtBox(r: Reader, args: seq<string>, conv: Conversions, s: Scan, f: DumpFrame)
    requires Inside(r, s, args) == true && HasBox(f) == true
    requires BoxLinesAt(r.contents.lines, r.pos, f) == true
    ensures StepLine(r, args, conv, s)
      == Continue(r.(box := FrameBox(f, conv), pos := r.pos + 4), s.(trace := s.trace + [BoxBounds(FrameBox(f, conv))]))
  {
    StepLineAtTag(r, args, conv, s, BoxTag + f.sides);
    BoxItemOfFrame(r, args, conv, s, f);
  }

  /** An `ATOMS` header naming every requested field, as a call's first header. */
  lemma AtomsItemOfHeader(r: Reader, args: seq<string>, s: Scan, header: seq<string>)
    requires Valid(r) && !r.eof && r.pos < |r.contents.lines| && Consistent(s, args)
    requires s.columns == map[] && s.avail == [] && forall a :: a in args ==> a in header
    ensures AtomsItem(r, AtomsTag + header, s, args)
      == Continue(r.(pos := r.pos + 1), s.(columns := HeaderColumns(header), avail := header))
  {
    assert (AtomsTag + header)[2..] == header;
    assert FirstMissing(args, HeaderColumns(header)).None?;
  }

  /** The `ATOMS` header of a call's first header records the frame's columns. */
  lemma StepAtAtoms(r: Reader, args: seq<string>, conv: Conversions, s: Scan, header: seq<string>)
    requires Valid(r) && !r.eof && Consistent(s, args) && s.columns == map[] && s.avail == []
    requires forall a :: a in args ==> a in header
    requires r.pos < |r.contents.lines| && Explode(r.contents.lines[r.pos]) == AtomsTag + header
    ensures StepLine(r, args, conv, s)
      == Continue(r.(pos := r.pos + 1), s.(columns := HeaderColumns(header), avail := header))
  {
    StepLineAtTag(r, args, conv, s, AtomsTag + header);
    AtomsItemOfHeader(r, args, s, header);
  }

  /** Adding `Atom` events keeps a scan consistent. */
  lemma AtomsKeepConsistent(s: Scan, args: seq<string>, t: seq<Event>)
    requires Consistent(s, args) && forall i :: 0 <= i < |t| ==> t[i].Atom?
    ensures Consistent(s.(trace := s.trace + t), args)
  {
  }

  /** A data row fires `Atom` with the record built from its tokens. */
  lemma StepAtRow(r: Reader, args: seq<string>, conv: Conversions, s: Scan, row: seq<string>)
    requires Valid(r) && !r.eof && Consistent(s, args) && Assignable(args)
    requires |s.avail| > 0 && |row| == |s.avail| && IsRow(row)
    requires r.pos < |r.contents.lines| && Explode(r.contents.lines[r.pos]) == row
    ensures StepLine(r, args, conv, s)
      == Continue(r.(pos := r.pos + 1), s.(trace := s.trace + [Atom(BuildAtom(Zero(), args, s.columns, row, r.box, conv).value)]))
  {
  }

  /** Appending one event and then a stretch is appending the stretch headed by it. */
  lemma ConsAppend<T>(a: seq<T>, x: T, b: seq<T>)
    ensures (a + [x]) + b == a + ([x] + b)
  {
  }

  /** A frame ends at the end of the file or at the next frame's `TIMESTEP` tag: `End`
      fires with the frame's timestep and the reader stays in front of the tag. */
  lemma RunAtFrameEnd(r: Reader, args: seq<string>, conv: Conversions, s: Scan)
    requires Inside(r, s, args) == true
    requires r.pos == |r.contents.lines| || IsTimestepTag(r.contents.lines[r.pos])
    ensures Run(r, args, conv, s)
      == ReadResult(Read, s.trace + [End(r.lastTstep)], r.(eof := r.pos == |r.contents.lines|))
  {
  }

  /** A line dispatched without stopping the call hands the read on to the next line. */
  lemma RunStepsTo(r: Reader, args: seq<string>, conv: Conversions, s: Scan, r': Reader, s': Scan)
    requires Valid(r) && !r.eof && r.pos < |r.contents.lines| && Consistent(s, args)
    requires StepLine(r, args, conv, s) == Continue(r', s')
    ensures Valid(r') && !r'.eof && Consistent(s', args)
    ensures Run(r, args, conv, s) == Run(r', args, conv, s')
  {
  }

  /** The rows of a frame run up to the end of the file or the next frame's tag. */
  predicate RowsEnd(lines: seq<string>, pos: nat, rows: seq<seq<string>>) {
    RowsAt(lines, pos, rows) && (pos + |rows| == |lines| || IsTimestepTag(lines[pos + |rows|]))
  }

  /** The lines from `pos` on hold the frame from its `ATOMS` header on. */
  predicate AtomsAt(lines: seq<string>, pos: nat, f: DumpFrame) {
    pos < |lines| && Explode(lines[pos]) == AtomsTag + f.header && RowsEnd(lines, pos + 1, f.rows)
  }

  /** The lines from `pos` on hold the frame from its `BOX BOUNDS` tag on. */
  predicate BoxAt(lines: seq<string>, pos: nat, f: DumpFrame) {
    BoxLinesAt(lines, pos, f) && AtomsAt(lines, pos + 4, f)
  }

  /** The lines from `pos` on start with the frame's `BOX BOUNDS` tag and bounds lines. */
  predicate BoxLinesAt(lines: seq<string>, pos: nat, f: DumpFrame) {
    && |f.bounds| == 3 && pos + 4 <= |lines|
    && Explode(lines[pos]) == BoxTag + f.sides
    && Explode(lines[pos + 1]) == [f.bounds[0].0, f.bounds[0].1]
    && Explode(lines[pos + 2]) == [f.bounds[1].0, f.bounds[1].1]
    && Explode(lines[pos + 3]) == [f.bounds[2].0, f.bounds[2].1]
  }

  /** The lines from `pos` on hold the frame from its atom-count tag on. */
  predicate NumberAt(lines: seq<string>, pos: nat, f: DumpFrame) {
    pos + 2 <= |lines| && Explode(lines[pos]) == NumberTag && lines[pos + 1] == f.natoms && BoxAt(lines, pos + 2, f)
  }

  /** The lines from `pos` on hold the whole frame, followed by the end of the file
      or by the next frame's tag. */
  predicate FrameAt(lines: seq<string>, pos: nat, f: DumpFrame) {
    pos + 2 <= |lines| && Explode(lines[pos]) == TimestepTag && lines[pos + 1] == f.tstep && NumberAt(lines, pos + 2, f)
  }

  /** What a frame requires of the field specification: every field can be stored and
      names a column of the frame. */
  predicate Requestable(f: DumpFrame, args: seq<string>) {
    Assignable(args) && forall a :: a in args ==> a in f.header
  }

  // The lemmas below take and give these phase predicates, and the layout predicates
  // above, whole (`P(..) == true`): the verifier then treats each as one fact
  // instead of checking it conjunct by conjunct at every call.

  /** A read in progress, inside a frame. */
  predicate Inside(r: Reader, s: Scan, args: seq<string>) {
    Valid(r) && !r.eof && Consistent(s, args) && s.inside
  }

  /** A read in front of a frame's rows, with the header's columns recorded. */
  predicate InRows(r: Reader, s: Scan, args: seq<string>, rows: seq<seq<string>>) {
    && Inside(r, s, args) && Assignable(args)
    && |s.avail| > 0 && RowsFit(rows, |s.avail|) && RowsEnd(r.contents.lines, r.pos, rows)
  }

  /** A read in front of the frame's `ATOMS` header, with no column known yet. */
  predicate InAtoms(r: Reader, s: Scan, args: seq<string>, f: DumpFrame) {
    && Inside(r, s, args) && s.columns == map[] && s.avail == []
    && |f.header| > 0 && RowsFit(f.rows, |f.header|) && Requestable(f, args)
    && AtomsAt(r.contents.lines, r.pos, f)
  }

  /** A read in front of the frame's `BOX BOUNDS` tag. */
  predicate InBox(r: Reader, s: Scan, args: seq<string>, f: DumpFrame) {
    && Inside(r, s, args) && s.columns == map[] && s.avail == []
    && WellFormed(f) && Requestable(f, args) && BoxAt(r.contents.lines, r.pos, f)
  }

  /** A read in front of the frame's atom-count tag. */
  predicate InNumber(r: Reader, s: Scan, args: seq<string>, f: DumpFrame) {
    && Inside(r, s, args) && s.columns == map[] && s.avail == []
    && WellFormed(f) && Requestable(f, args) && NumberAt(r.contents.lines, r.pos, f)
  }

  /** Past a data row, the read goes on from the next line with one more `Atom`. */
  lemma RunAtRow(r: Reader, args: seq<string>, conv: Conversions, s: Scan, row: seq<string>)
    requires Inside(r, s, args) == true && Assignable(args)
    requires |s.avail| > 0 && |row| == |s.avail| && IsRow(row)
    requires r.pos < |r.contents.lines| && Explode(r.contents.lines[r.pos]) == row
    ensures Run(r, args, conv, s)
      == Run(r.(pos := r.pos + 1), args, conv, s.(trace := s.trace + [Atom(BuildAtom(Zero(), args, s.columns, row, r.box, conv).value)]))
  {
    var e := Atom(BuildAtom(Zero(), args, s.columns, row, r.box, conv).value);
    StepAtRow(r, args, conv, s, row);
    RunStepsTo(r, args, conv, s, r.(pos := r.pos + 1), s.(trace := s.trace + [e]));
  }

  /** The read stays in front of the remaining rows after one more row and its `Atom`. */
  lemma NextRow(r: Reader, s: Scan, args: seq<string>, rows: seq<seq<string>>, e: Event)
    requires InRows(r, s, args, rows) == true && rows != [] && e.Atom?
    ensures InRows(r.(pos := r.pos + 1), s.(trace := s.trace + [e]), args, rows[1..])
  {
    AtomsKeepConsistent(s, args, [e]);
  }

  /** The data rows of a frame, up to the end of the file or the next frame's tag, fire
      one `Atom` each, in order, and then `End`. */
  lemma {:induction false} RunOverRows(r: Reader, args: seq<string>, conv: Conversions, s: Scan, rows: seq<seq<string>>)
    requires InRows(r, s, args, rows) == true
    ensures Run(r, args, conv, s)
      == ReadResult(Read, s.trace + RowEvents(rows, args, s.columns, |s.avail|, r.box, conv) + [End(r.lastTstep)],
                    r.(pos := r.pos + |rows|, eof := r.pos + |rows| == |r.contents.lines|))
    decreases |rows|
  {
    var t := RowEvents(rows, args, s.columns, |s.avail|, r.box, conv);
    if rows == [] {
      assert s.trace + t == s.trace;
      RunAtFrameEnd(r, args, conv, s);
    } else {
      var s1 := s.(trace := s.trace + [t[0]]);
      RunAtRow(r, args, conv, s, rows[0]);
      NextRow(r, s, args, rows, t[0]);
      RunOverRows(r.(pos := r.pos + 1), args, conv, s1, rows[1..]);
      var t1 := RowEvents(rows[1..], args, s.columns, |s.avail|, r.box, conv);
      assert t == [t[0]] + t1;
      ConsAppend(s.trace, t[0], t1);
    }
  }

  /** Past a call's first `ATOMS` header, the read goes on from the next line with the
      header's columns recorded. */
  lemma RunAtAtoms(r: Reader, args: seq<string>, conv: Conversions, s: Scan, header: seq<string>)
    requires Valid(r) && !r.eof && Consistent(s, args) && s.columns == map[] && s.avail == []
    requires forall a :: a in args ==> a in header
    requires r.pos < |r.contents.lines| && Explode(r.contents.lines[r.pos]) == AtomsTag + header
    ensures Run(r, args, conv, s) == Run(r.(pos := r.pos + 1), args, conv, s.(columns := HeaderColumns(header), avail := header))
  {
    StepAtAtoms(r, args, conv, s, header);
    RunStepsTo(r, args, conv, s, r.(pos := r.pos + 1), s.(columns := HeaderColumns(header), avail := header));
  }

  /** Past the frame's `ATOMS` header the read is in front of its rows. */
  lemma AtomsToRows(r: Reader, s: Scan, args: seq<string>, f: DumpFrame)
    requires InAtoms(r, s, args, f) == true
    ensures InRows(r.(pos := r.pos + 1), s.(columns := HeaderColumns(f.header), avail := f.header), args, f.rows)
  {
  }

  /** From the `ATOMS` header on, the read records the columns and then fires one
      `Atom` per row and `End`. */
  lemma RunFromAtoms(r: Reader, args: seq<string>, conv: Conversions, s: Scan, f: DumpFrame)
    requires InAtoms(r, s, args, f) == true
    ensures Run(r, args, conv, s)
      == ReadResult(Read, s.trace + RowEvents(f.rows, args, HeaderColumns(f.header), |f.header|, r.box, conv) + [End(r.lastTstep)],
                    r.(pos := r.pos + 1 + |f.rows|, eof := r.pos + 1 + |f.rows| == |r.contents.lines|))
  {
    RunAtAtoms(r, args, conv, s, f.header);
    AtomsToRows(r, s, args, f);
    RunOverRows(r.(pos := r.pos + 1), args, conv, s.(columns := HeaderColumns(f.header), avail := f.header), f.rows);
  }

  /** Past a `BOX BOUNDS` tag with the frame's boundary tokens and its bounds lines, the
      read goes on with the frame's box stored and `BoxBounds` fired. */
  lemma RunAtBox(r: Reader, args: seq<string>, conv: Conversions, s: Scan, f: DumpFrame)
    requires Inside(r, s, args) == true && HasBox(f) == true
    requires BoxLinesAt(r.contents.lines, r.pos, f) == true
    ensures Run(r, args, conv, s)
      == Run(r.(box := FrameBox(f, conv), pos := r.pos + 4), args, conv, s.(trace := s.trace + [BoxBounds(FrameBox(f, conv))]))
  {
    StepAtBox(r, args, conv, s, f);
    RunStepsTo(r, args, conv, s, r.(box := FrameBox(f, conv), pos := r.pos + 4), s.(trace := s.trace + [BoxBounds(FrameBox(f, conv))]));
  }

  /** Past the frame's box the read is in front of its `ATOMS` header. */
  lemma BoxToAtoms(r: Reader, s: Scan, args: seq<string>, f: DumpFrame, conv: Conversions)
    requires InBox(r, s, args, f) == true
    ensures InAtoms(r.(box := FrameBox(f, conv), pos := r.pos + 4), s.(trace := s.trace + [BoxBounds(FrameBox(f, conv))]), args, f)
  {
    assert NoEnd(s.trace + [BoxBounds(FrameBox(f, conv))]);
  }

  /** From the `BOX BOUNDS` tag on, the read stores the frame's box, fires `BoxBounds`,
      then the atoms and `End`. */
  lemma RunFromBox(r: Reader, args: seq<string>, conv: Conversions, s: Scan, f: DumpFrame)
    requires InBox(r, s, args, f) == true
    ensures Run(r, args, conv, s)
      == ReadResult(Read, s.trace + [BoxBounds(FrameBox(f, conv))] + FrameAtoms(f, args, conv) + [End(r.lastTstep)],
                    r.(box := FrameBox(f, conv), pos := r.pos + 5 + |f.rows|, eof := r.pos + 5 + |f.rows| == |r.contents.lines|))
  {
    RunAtBox(r, args, conv, s, f);
    BoxToAtoms(r, s, args, f, conv);
    RunFromAtoms(r.(box := FrameBox(f, conv), pos := r.pos + 4), args, conv, s.(trace := s.trace + [BoxBounds(FrameBox(f, conv))]), f);
  }

  /** Past an atom-count tag and its value, the read goes on with the count stored. */
  lemma RunAtNumber(r: Reader, args: seq<string>, conv: Conversions, s: Scan, natoms: string)
    requires Valid(r) && !r.eof && Consistent(s, args)
    requires r.pos + 1 < |r.contents.lines| && Explode(r.contents.lines[r.pos]) == NumberTag
    requires r.contents.lines[r.pos + 1] == natoms
    ensures Run(r, args, conv, s) == Run(r.(nAtoms := conv.atoi(natoms), pos := r.pos + 2), args, conv, s)
  {
    StepAtNumber(r, args, conv, s);
    RunStepsTo(r, args, conv, s, r.(nAtoms := conv.atoi(natoms), pos := r.pos + 2), s);
  }

  /** Past the frame's atom count the read is in front of its box. */
  lemma NumberToBox(r: Reader, s: Scan, args: seq<string>, f: DumpFrame, conv: Conversions)
    requires InNumber(r, s, args, f) == true
    ensures InBox(r.(nAtoms := conv.atoi(f.natoms), pos := r.pos + 2), s, args, f)
  {
  }

  /** From the atom-count tag on, the read stores the count and the box, fires
      `BoxBounds`, then the atoms and `End`. */
  lemma RunFromNumber(r: Reader, args: seq<string>, conv: Conversions, s: Scan, f: DumpFrame)
    requires InNumber(r, s, args, f) == true
    ensures Run(r, args, conv, s)
      == ReadResult(Read, s.trace + [BoxBounds(FrameBox(f, conv))] + FrameAtoms(f, args, conv) + [End(r.lastTstep)],
                    r.(nAtoms := conv.atoi(f.natoms), box := FrameBox(f, conv), pos := r.pos + 7 + |f.rows|,
                       eof := r.pos + 7 + |f.rows| == |r.contents.lines|))
  {
    RunAtNumber(r, args, conv, s, f.natoms);
    NumberToBox(r, s, args, f, conv);
    RunFromBox(r.(nAtoms := conv.atoi(f.natoms), pos := r.pos + 2), args, conv, s, f);
  }

  /** A reader in front of a whole frame, with a field specification the frame
      satisfies. */
  predicate AtFrame(r: Reader, args: seq<string>, f: DumpFrame) {
    Valid(r) && !r.eof && WellFormed(f) && Requestable(f, args) && FrameAt(r.contents.lines, r.pos, f)
  }

  /** A reader on a `TIMESTEP` tag whose next line is `tstep`. */
  predicate OnTimestep(r: Reader, tstep: string) {
    && Valid(r) && !r.eof && r.pos + 1 < |r.contents.lines|
    && Explode(r.contents.lines[r.pos]) == TimestepTag && r.contents.lines[r.pos + 1] == tstep
  }

  /** The scan once the first `TIMESTEP` tag of a call has fired `Start`. */
  function Started(tstep: int): Scan {
    Scan(true, map[], [], [Start(tstep)])
  }

  /** The first `TIMESTEP` tag of a call fires `Start` with the previous timestep and
      the read goes on with the timestep from the next line stored. */
  lemma RunAtFirstTimestep(r: Reader, args: seq<string>, conv: Conversions, tstep: string)
    requires OnTimestep(r, tstep) == true
    ensures Run(r, args, conv, Fresh)
      == Run(r.(lastTstep := conv.atoi(tstep), pos := r.pos + 2), args, conv, Started(r.lastTstep))
  {
    assert Fresh.trace + [Start(r.lastTstep)] == [Start(r.lastTstep)];
    StepAtFirstTimestep(r, args, conv, Fresh);
    RunStepsTo(r, args, conv, Fresh, r.(lastTstep := conv.atoi(tstep), pos := r.pos + 2), Started(r.lastTstep));
  }

  /** Past the frame's timestep the read is in front of its atom count. */
  lemma FrameToNumber(r: Reader, args: seq<string>, f: DumpFrame, conv: Conversions)
    requires AtFrame(r, args, f) == true
    ensures OnTimestep(r, f.tstep)
    ensures InNumber(r.(lastTstep := conv.atoi(f.tstep), pos := r.pos + 2), Started(r.lastTstep), args, f)
  {
  }

  /** From a frame's `TIMESTEP` tag the read fires `Start`, `BoxBounds`, one `Atom` per
      row and `End`. */
  lemma RunWholeFrame(r: Reader, args: seq<string>, conv: Conversions, f: DumpFrame)
    requires OnTimestep(r, f.tstep) == true
    requires InNumber(r.(lastTstep := conv.atoi(f.tstep), pos := r.pos + 2), Started(r.lastTstep), args, f) == true
    ensures Run(r, args, conv, Fresh)
      == ReadResult(Read, [Start(r.lastTstep)] + [BoxBounds(FrameBox(f, conv))] + FrameAtoms(f, args, conv) + [End(conv.atoi(f.tstep))],
                    r.(lastTstep := conv.atoi(f.tstep), nAtoms := conv.atoi(f.natoms), box := FrameBox(f, conv),
                       pos := r.pos + 9 + |f.rows|, eof := r.pos + 9 + |f.rows| == |r.contents.lines|))
  {
    var r2 := r.(lastTstep := conv.atoi(f.tstep), pos := r.pos + 2);
    RunAtFirstTimestep(r, args, conv, f.tstep);
    RunFromNumber(r2, args, conv, Started(r.lastTstep), f);
  }

  /** Reading a whole frame: `Start` with the previous frame's timestep, `BoxBounds`
      with the frame's box, one `Atom` per row in order, and `End` with the frame's
      timestep; the reader stores the frame's timestep, atom count and box and stops
      at the end of the file or in front of the next frame. */
  lemma ReadWholeFrame(r: Reader, args: seq<string>, conv: Conversions, f: DumpFrame)
    requires AtFrame(r, args, f) == true
    ensures ReadTextFrame(r, args, conv)
      == ReadResult(Read, [Start(r.lastTstep)] + [BoxBounds(FrameBox(f, conv))] + FrameAtoms(f, args, conv) + [End(conv.atoi(f.tstep))],
                    r.(lastTstep := conv.atoi(f.tstep), nAtoms := conv.atoi(f.natoms), box := FrameBox(f, conv),
                       pos := r.pos + 9 + |f.rows|, eof := r.pos + 9 + |f.rows| == |r.contents.lines|))
  {
    FrameToNumber(r, args, f, conv);
    RunWholeFrame(r, args, conv, f);
  }

  /** The tag lines a writer prints split back into their tokens. */
  lemma TagLinesExplode()
    ensures Explode(Join(TimestepTag)) == TimestepTag && Explode(Join(NumberTag)) == NumberTag
  {
    TagsAreTokens();
    ExplodeJoin(TimestepTag);
    ExplodeJoin(NumberTag);
  }

  /** A printed pair of tokens splits back into the pair. */
  lemma PairExplodes(x: string, y: string)
    requires IsToken(x) && IsToken(y)
    ensures Explode(Join([x, y])) == [x, y]
  {
    ExplodeJoin([x, y]);
  }

  /** The box lines a writer prints split back into the frame's tokens. */
  lemma BoxLinesExplode(f: DumpFrame)
    requires HasBox(f)
    ensures Explode(Join(BoxTag + f.sides)) == BoxTag + f.sides
    ensures Explode(Join([f.bounds[0].0, f.bounds[0].1])) == [f.bounds[0].0, f.bounds[0].1]
    ensures Explode(Join([f.bounds[1].0, f.bounds[1].1])) == [f.bounds[1].0, f.bounds[1].1]
    ensures Explode(Join([f.bounds[2].0, f.bounds[2].1])) == [f.bounds[2].0, f.bounds[2].1]
  {
    var b := f.bounds;
    assert Explode(Join(BoxTag + f.sides)) == BoxTag + f.sides by {
      BoxTagTokens(f);
      ExplodeJoin(BoxTag + f.sides);
    }
    assert IsToken(b[0].0) && IsToken(b[0].1) && IsToken(b[1].0) && IsToken(b[1].1) && IsToken(b[2].0) && IsToken(b[2].1);
    PairExplodes(b[0].0, b[0].1);
    PairExplodes(b[1].0, b[1].1);
    PairExplodes(b[2].0, b[2].1);
  }

  /** The `ATOMS` header line a writer prints splits back into the tag and the column
      names. */
  lemma AtomsLineExplodes(header: seq<string>)
    requires IsTokenList(header)
    ensures Explode(Join(AtomsTag + header)) == AtomsTag + header
  {
    TagsAreTokens();
    var v := AtomsTag + header;
    forall i | 0 <= i < |v| ensures IsToken(v[i]) {
      if i >= 2 { assert v[i] == header[i - 2]; }
    }
    ExplodeJoin(v);
  }

  /** Moving one line from the front of a stretch to the end of what precedes it. */
  lemma Regroup<T>(pre: seq<T>, x: T, rest: seq<T>, post: seq<T>)
    ensures pre + ([x] + rest) + post == (pre + [x]) + rest + post
    ensures (pre + ([x] + rest) + post)[|pre|] == x
  {
    assert pre + ([x] + rest) + post == (pre + [x]) + (rest + post);
  }

  /** Printed rows, wherever they stand in a file, split back into their tokens. */
  lemma {:induction false} RowsRendered(pre: seq<string>, rows: seq<seq<string>>, post: seq<string>, width: nat)
    requires RowsFit(rows, width)
    ensures RowsAt(pre + RenderRows(rows) + post, |pre|, rows)
    decreases |rows|
  {
    if rows != [] {
      var x := Join(rows[0]);
      var rest := RenderRows(rows[1..]);
      assert RenderRows(rows) == [x] + rest;
      Regroup(pre, x, rest, post);
      RowsRendered(pre + [x], rows[1..], post, width);
      ExplodeJoin(rows[0]);
    }
  }

  /** A printed frame starts with a `TIMESTEP` tag. */
  lemma RenderStartsFrame(f: DumpFrame)
    requires |f.bounds| == 3
    ensures IsTimestepTag(Render(f)[0])
  {
    TagLinesExplode();
  }

  /** The lines of a printed frame, one by one. */
  lemma PageLines(f: DumpFrame)
    requires |f.bounds| == 3
    ensures var page := Render(f);
      && page[0] == Join(TimestepTag) && page[1] == f.tstep
      && page[2] == Join(NumberTag) && page[3] == f.natoms
      && page[4] == Join(BoxTag + f.sides)
      && page[5] == Join([f.bounds[0].0, f.bounds[0].1])
      && page[6] == Join([f.bounds[1].0, f.bounds[1].1])
      && page[7] == Join([f.bounds[2].0, f.bounds[2].1])
      && page[8] == Join(AtomsTag + f.header)
      && forall k :: 0 <= k < |f.rows| ==> page[9 + k] == Join(f.rows[k])
  {
  }

  /** A stretch of lines placed in a file is found at its offset. */
  lemma Placed(before: seq<string>, page: seq<string>, after: seq<string>)
    ensures forall i :: 0 <= i < |page| ==> (before + page + after)[|before| + i] == page[i]
    ensures after != [] ==> (before + page + after)[|before| + |page|] == after[0]
  {
  }

  /** A printed `ATOMS` header in front of the frame's rows. */
  lemma AtomsPrinted(lines: seq<string>, q: nat, f: DumpFrame)
    requires IsTokenList(f.header) && q + 1 <= |lines| && RowsEnd(lines, q + 1, f.rows) == true
    requires lines[q] == Join(AtomsTag + f.header)
    ensures AtomsAt(lines, q, f) == true
  {
    AtomsLineExplodes(f.header);
  }

  /** A printed `BOX BOUNDS` tag and bounds lines in front of the printed atoms. */
  lemma BoxPrinted(lines: seq<string>, q: nat, f: DumpFrame)
    requires HasBox(f) && q + 4 <= |lines| && AtomsAt(lines, q + 4, f) == true
    requires lines[q] == Join(BoxTag + f.sides)
    requires lines[q + 1] == Join([f.bounds[0].0, f.bounds[0].1])
    requires lines[q + 2] == Join([f.bounds[1].0, f.bounds[1].1])
    requires lines[q + 3] == Join([f.bounds[2].0, f.bounds[2].1])
    ensures BoxAt(lines, q, f) == true
  {
    BoxLinesExplode(f);
  }

  /** The printed timestep and atom-count tags and values in front of the printed box. */
  lemma FramePrinted(lines: seq<string>, q: nat, f: DumpFrame)
    requires q + 4 <= |lines| && BoxAt(lines, q + 4, f) == true
    requires lines[q] == Join(TimestepTag) && lines[q + 1] == f.tstep
    requires lines[q + 2] == Join(NumberTag) && lines[q + 3] == f.natoms
    ensures FrameAt(lines, q, f)
  {
    TagLinesExplode();
  }

  /** A printed frame, anywhere in a file and followed by the end of the file or by
      another frame, is where the reader finds it. */
  lemma RenderedFrameAt(f: DumpFrame, before: seq<string>, after: seq<string>)
    requires WellFormed(f) && (after == [] || IsTimestepTag(after[0]))
    ensures FrameAt(before + Render(f) + after, |before|, f) == true
  {
    var page := Render(f);
    var lines := before + page + after;
    var p := |before|;
    PageLines(f);
    Placed(before, page, after);
    assert RowsEnd(lines, p + 9, f.rows) == true by {
      assert lines == (before + page[..9]) + RenderRows(f.rows) + after;
      RowsRendered(before + page[..9], f.rows, after, |f.header|);
    }
    assert lines[p + 8] == page[8];
    AtomsPrinted(lines, p + 8, f);
    assert lines[p + 4] == page[4] && lines[p + 5] == page[5] && lines[p + 6] == page[6] && lines[p + 7] == page[7];
    BoxPrinted(lines, p + 4, f);
    assert lines[p] == page[0] && lines[p + 1] == page[1] && lines[p + 2] == page[2] && lines[p + 3] == page[3];
    FramePrinted(lines, p, f);
  }

  /** Reading a printed frame gives the frame back: `Start`, the frame's box, one
      `Atom` per printed row in order, and `End` with the printed timestep; the reader
      keeps the printed atom count, unchecked against the rows, and stops in front of
      the next frame or at the end of the file. */
  lemma ReadRenderedFrame(r: Reader, args: seq<string>, conv: Conversions, f: DumpFrame, before: seq<string>, after: seq<string>)
    requires WellFormed(f) && Requestable(f, args) && (after == [] || IsTimestepTag(after[0]))
    requires Valid(r) && !r.eof && r.contents.lines == before + Render(f) + after && r.pos == |before|
    ensures var res := ReadTextFrame(r, args, conv);
      && res.outcome == Read
      && res.trace == [Start(r.lastTstep)] + [BoxBounds(FrameBox(f, conv))] + FrameAtoms(f, args, conv) + [End(conv.atoi(f.tstep))]
      && res.reader.lastTstep == conv.atoi(f.tstep) && res.reader.nAtoms == conv.atoi(f.natoms)
      && res.reader.box == FrameBox(f, conv)
      && res.reader.pos == |before| + |Render(f)| && res.reader.eof == (after == [])
  {
    RenderedFrameAt(f, before, after);
    ReadWholeFrame(r, args, conv, f);
  }

  /** Reading a printed frame passes on its rows as they are printed: the call after
      `Start` and `BoxBounds` is, row by row, an `Atom` whose record holds that row's
      requested fields, converted and corrected, and zero in every other slot. */
  lemma ReadRenderedRows(r: Reader, args: seq<string>, conv: Conversions, f: DumpFrame, before: seq<string>, after: seq<string>)
    requires WellFormed(f) && Requestable(f, args) && (after == [] || IsTimestepTag(after[0]))
    requires Valid(r) && !r.eof && r.contents.lines == before + Render(f) + after && r.pos == |before|
    ensures var res := ReadTextFrame(r, args, conv);
      && |res.trace| == |f.rows| + 3
      && forall i :: 2 <= i < 2 + |f.rows| ==> res.trace[i].Atom? && HoldsRow(res.trace[i].atom, f, args, i - 2, conv)
  {
    ReadRenderedFrame(r, args, conv, f, before, after);
    FrameAtomsHoldRows(f, args, conv);
    var res := ReadTextFrame(r, args, conv);
    var atoms := FrameAtoms(f, args, conv);
    assert res.trace == [Start(r.lastTstep)] + [BoxBounds(FrameBox(f, conv))] + atoms + [End(conv.atoi(f.tstep))];
    forall i | 2 <= i < 2 + |f.rows| ensures res.trace[i] == atoms[i - 2] { }
  }

  /** Two printed frames in a row are read by two calls; the second call's `Start`
      reports the first frame's timestep. */
  lemma ReadTwoFrames(r: Reader, args: seq<string>, conv: Conversions, f: DumpFrame, g: DumpFrame)
    requires WellFormed(f) && Requestable(f, args) && WellFormed(g) && Requestable(g, args)
    requires Valid(r) && !r.eof && r.contents.lines == Render(f) + Render(g) && r.pos == 0
    ensures var first := ReadTextFrame(r, args, conv);
      var second := ReadTextFrame(first.reader, args, conv);
      && first.outcome == Read && second.outcome == Read
      && first.trace == [Start(r.lastTstep)] + [BoxBounds(FrameBox(f, conv))] + FrameAtoms(f, args, conv) + [End(conv.atoi(f.tstep))]
      && second.trace == [Start(conv.atoi(f.tstep))] + [BoxBounds(FrameBox(g, conv))] + FrameAtoms(g, args, conv) + [End(conv.atoi(g.tstep))]
      && second.reader.eof
  {
    RenderStartsFrame(g);
    assert r.contents.lines == [] + Render(f) + Render(g);
    ReadRenderedFrame(r, args, conv, f, [], Render(g));
    var first := ReadTextFrame(r, args, conv);
    assert first.reader.contents.lines == Render(f) + Render(g) + [];
    ReadRenderedFrame(first.reader, args, conv, g, Render(f), []);
  }

  /** A call's first `ATOMS` header that lacks a requested field stops the read: the
      return is false, naming the first requested field the header lacks, and no hook
      is called for it. */
  lemma RunAtMissingColumn(r: Reader, args: seq<string>, conv: Conversions, s: Scan, header: seq<string>)
    requires Valid(r) && !r.eof && Consistent(s, args) && s.columns == map[] && s.avail == []
    requires r.pos < |r.contents.lines| && Explode(r.contents.lines[r.pos]) == AtomsTag + header
    requires exists a :: a in args && a !in header
    ensures var res := Run(r, args, conv, s);
      && res.outcome.Failed? && res.outcome.why.MissingColumn?
      && res.trace == s.trace && res.reader == r.(pos := r.pos + 1)
      && exists i :: 0 <= i < |args| && args[i] == res.outcome.why.name && args[i] !in header
           && forall k :: 0 <= k < i ==> args[k] in header
  {
    StepLineAtTag(r, args, conv, s, AtomsTag + header);
    assert (AtomsTag + header)[2..] == header;
    var m := FirstMissing(args, HeaderColumns(header));
    assert m.Some?;
  }

  /** A data row, when a requested field has no slot text mode can store it in, stops
      the read: the return is false, naming such a field, and no `Atom` fires. */
  lemma RunAtUnsupportedField(r: Reader, args: seq<string>, conv: Conversions, s: Scan, row: seq<string>)
    requires Valid(r) && !r.eof && Consistent(s, args) && !Assignable(args)
    requires |s.avail| > 0 && |row| == |s.avail| && IsRow(row)
    requires r.pos < |r.contents.lines| && Explode(r.contents.lines[r.pos]) == row
    ensures var res := Run(r, args, conv, s);
      && res.outcome.Failed? && res.outcome.why.UnsupportedProperty?
      && res.outcome.why.name in args && AssignTarget(res.outcome.why.name) == NullProperty
      && res.trace == s.trace && res.reader == r.(pos := r.pos + 1)
  {
  }

  /** `mu` is a property name, yet text mode has no slot for it. */
  lemma MuIsUnsupported()
    ensures StringToProperty("mu") == Mu && AssignTarget("mu") == NullProperty
    ensures !Assignable(["mu"])
  {
    AssignTargetIsResolution("mu");
    assert "mu" in ["mu"];
  }
}
