/** Text mode. One call reads lines from the current position, dispatching on the
    `ITEM:` tags of a LAMMPS text dump, until it meets the `ITEM: TIMESTEP` tag of the
    next frame (it then stops in front of that line so the next call starts there) or
    the end of the file. Every line is taken to end in a newline. */
module TextFrame {
  import opened Wrappers
  import opened Tokenize
  import opened Properties
  import opened Atoms
  import opened Periodic
  import opened State

  /** What one call has gathered so far: whether a `TIMESTEP` tag has been met, the
      column index recorded for each header name, every header name in the order
      read, and the hooks called. The map and the list are never cleared within a
      call, so a second `ATOMS` header adds to them. */
  datatype Scan = Scan(inside: bool, columns: map<string, int>, avail: seq<string>, trace: seq<Event>)

  /** The scan a call starts with. */
  const Fresh: Scan := Scan(false, map[], [], [])

  /** The result of dispatching one line: go on with the next line, or stop the call. */
  datatype Step = Continue(next: Reader, scan: Scan) | Stop(result: ReadResult)

  /** The line is an `ITEM: TIMESTEP` tag. */
  predicate IsTimestepTag(line: string) {
    var v := Explode(line);
    |v| >= 2 && v[0] == "ITEM:" && v[1] == "TIMESTEP"
  }

  /** Where a true return leaves the reader: at the end of the file with the
      end-of-file flag set, or in front of the tag that opens the next frame. */
  predicate Resumable(r: Reader) {
    || (r.eof && r.pos == |r.contents.lines|)
    || (!r.eof && r.pos < |r.contents.lines| && IsTimestepTag(r.contents.lines[r.pos]))
  }

  /** Every recorded column index addresses a column of the headers read so far, and
      once any column is known every requested field is among them. */
  predicate ColumnsFit(s: Scan, args: seq<string>) {
    && (forall k :: k in s.columns ==> 0 <= s.columns[k] < |s.avail|)
    && (|s.avail| > 0 ==> forall a :: a in args ==> a in s.columns)
  }

  /** What holds of the scan between two lines: the columns fit, no `End` has been
      emitted, and there is at most one `Start`, none before the first `TIMESTEP` tag. */
  predicate Consistent(s: Scan, args: seq<string>) {
    && ColumnsFit(s, args)
    && NoEnd(s.trace)
    && AtMostOneStart(s.trace)
    && (!s.inside ==> NoStart(s.trace))
  }

  /** What dispatching one line guarantees. A step that goes on has consumed at least
      that line, kept the scan consistent and only added hooks. A step that stops
      with a true return has met the second `TIMESTEP` tag: it adds `End` and leaves
      the reader in front of that tag. A step that stops otherwise adds no `End`. */
  predicate StepOk(r: Reader, s: Scan, args: seq<string>, st: Step) {
    match st
    case Continue(r', s') =>
      && Valid(r') && !r'.eof && SameFile(r, r') && r'.pos > r.pos
      && Consistent(s', args) && Extends(s'.trace, s.trace)
    case Stop(res) =>
      && Valid(res.reader) && SameFile(r, res.reader) && res.reader.pos >= r.pos
      && Extends(res.trace, s.trace)
      && (res.outcome.Read? ==>
            && s.inside && res.reader == r && r.pos < |r.contents.lines|
            && IsTimestepTag(r.contents.lines[r.pos])
            && res.trace == s.trace + [End(r.lastTstep)])
      && (!res.outcome.Read? ==> NoEnd(res.trace) && AtMostOneStart(res.trace))
  }

  /** Character `i` of a boundary token; the position one past the end reads as the
      string's terminating NUL, so a one-letter token gives NUL for its upper side. */
  function Letter(t: string, i: nat): (c: char)
    requires i <= |t|
    ensures i < |t| ==> c == t[i]
    ensures i == |t| ==> c == '\0'
  {
    if i < |t| then t[i] else '\0'
  }

  /** The boundary letters of a `BOX BOUNDS` tag line: tokens 3, 4 and 5 give the x, y
      and z axes, first character for the lower side and second for the upper. */
  function HeaderSides(v: seq<string>): (sides: Sides3)
    requires |v| >= 6 && forall i :: 0 <= i < |v| ==> |v[i]| > 0
    ensures forall a :: 0 <= a < 3 ==> sides[a] == Sides(Letter(v[a + 3], 0), Letter(v[a + 3], 1))
  {
    [Sides(Letter(v[3], 0), Letter(v[3], 1)),
     Sides(Letter(v[4], 0), Letter(v[4], 1)),
     Sides(Letter(v[5], 0), Letter(v[5], 1))]
  }

  /** Where reading the bounds lines ended: whether every line read had two tokens,
      the bounds as updated, and the position after the last line read. */
  datatype Bounds = Bounds(ok: bool, lo: Real3, hi: Real3, pos: nat)

  /** Read the bounds lines of axes `i` to 2 starting at line `pos`. Each line needs
      two tokens, the axis's lower and upper bound. The end of the file stops the
      reading early without error; a line with fewer tokens stops it with an error,
      keeping the axes already read. */
  function ReadBounds(lines: seq<string>, pos: nat, i: nat, lo: Real3, hi: Real3, conv: Conversions): (b: Bounds)
    requires pos <= |lines| && i <= 3
    ensures pos <= b.pos <= |lines| && b.pos - pos <= 3 - i
    decreases 3 - i
  {
    if i == 3 || pos == |lines| then Bounds(true, lo, hi, pos)
    else
      var t := Explode(lines[pos]);
      if |t| < 2 then Bounds(false, lo, hi, pos + 1)
      else ReadBounds(lines, pos + 1, i + 1, lo[i := conv.atof(t[0])], hi[i := conv.atof(t[1])], conv)
  }

  /** Reading the bounds lines stops early only at the end of the file, and fails
      exactly at a line of fewer than two tokens, which it consumes. */
  lemma {:induction false} ReadBoundsEnds(lines: seq<string>, pos: nat, i: nat, lo: Real3, hi: Real3, conv: Conversions)
    requires pos <= |lines| && i <= 3
    ensures var b := ReadBounds(lines, pos, i, lo, hi, conv);
      && (b.ok ==> b.pos == |lines| || b.pos - pos == 3 - i)
      && (!b.ok ==> b.pos > pos && |Explode(lines[b.pos - 1])| < 2)
    decreases 3 - i
  {
    if i < 3 && pos < |lines| {
      var t := Explode(lines[pos]);
      if |t| >= 2 {
        ReadBoundsEnds(lines, pos + 1, i + 1, lo[i := conv.atof(t[0])], hi[i := conv.atof(t[1])], conv);
      }
    }
  }

  /** The axes that no bounds line reached, and the axis of a line that failed, keep
      their bounds. */
  lemma {:induction false} ReadBoundsKeeps(lines: seq<string>, pos: nat, i: nat, lo: Real3, hi: Real3, conv: Conversions)
    requires pos <= |lines| && i <= 3
    ensures var b := ReadBounds(lines, pos, i, lo, hi, conv);
      forall a :: 0 <= a < 3 && (a < i || a >= i + (b.pos - pos) || (!b.ok && a == i + (b.pos - pos) - 1)) ==>
        b.lo[a] == lo[a] && b.hi[a] == hi[a]
    decreases 3 - i
  {
    if i < 3 && pos < |lines| {
      var t := Explode(lines[pos]);
      if |t| >= 2 {
        var lo', hi' := lo[i := conv.atof(t[0])], hi[i := conv.atof(t[1])];
        assert ReadBounds(lines, pos, i, lo, hi, conv) == ReadBounds(lines, pos + 1, i + 1, lo', hi', conv);
        ReadBoundsKeeps(lines, pos + 1, i + 1, lo', hi', conv);
      }
    }
  }

  /** Lines `from` up to `to` each hold at least two tokens. */
  predicate PairLines(lines: seq<string>, from: nat, to: nat) {
    to <= |lines| && forall j :: from <= j < to ==> |Explode(lines[j])| >= 2
  }

  /** A line of fewer than two tokens among the bounds lines, with only complete lines
      before it, fails the reading there: the converse of `ReadBoundsEnds`. */
  lemma {:induction false} ReadBoundsFailsAt(lines: seq<string>, pos: nat, i: nat, lo: Real3, hi: Real3, conv: Conversions, k: nat)
    requires i + k < 3 && pos + k < |lines|
    requires |Explode(lines[pos + k])| < 2 && PairLines(lines, pos, pos + k)
    ensures var b := ReadBounds(lines, pos, i, lo, hi, conv); !b.ok && b.pos == pos + k + 1
    decreases k
  {
    if k > 0 {
      var t := Explode(lines[pos]);
      ReadBoundsFailsAt(lines, pos + 1, i + 1, lo[i := conv.atof(t[0])], hi[i := conv.atof(t[1])], conv, k - 1);
    }
  }

  /** Each bounds line read sets its axis from its first two tokens. */
  lemma {:induction false} ReadBoundsSets(lines: seq<string>, pos: nat, i: nat, lo: Real3, hi: Real3, conv: Conversions)
    requires pos <= |lines| && i <= 3
    ensures var b := ReadBounds(lines, pos, i, lo, hi, conv);
      forall a :: i <= a < i + (b.pos - pos) && (b.ok || a < i + (b.pos - pos) - 1) ==>
        var t := Explode(lines[pos + (a - i)]);
        |t| >= 2 && b.lo[a] == conv.atof(t[0]) && b.hi[a] == conv.atof(t[1])
    decreases 3 - i
  {
    if i < 3 && pos < |lines| {
      var t := Explode(lines[pos]);
      if |t| >= 2 {
        var lo', hi' := lo[i := conv.atof(t[0])], hi[i := conv.atof(t[1])];
        assert ReadBounds(lines, pos, i, lo, hi, conv) == ReadBounds(lines, pos + 1, i + 1, lo', hi', conv);
        var b := ReadBounds(lines, pos + 1, i + 1, lo', hi', conv);
        ReadBoundsSets(lines, pos + 1, i + 1, lo', hi', conv);
        ReadBoundsKeeps(lines, pos + 1, i + 1, lo', hi', conv);
        forall a | i <= a < i + (b.pos - pos) && (b.ok || a < i + (b.pos - pos) - 1)
          ensures var t := Explode(lines[pos + (a - i)]);
            |t| >= 2 && b.lo[a] == conv.atof(t[0]) && b.hi[a] == conv.atof(t[1])
        {
          if a == i {
            assert b.lo[a] == lo'[a] && b.hi[a] == hi'[a];
          } else {
            assert pos + (a - i) == pos + 1 + (a - (i + 1));
          }
        }
      }
    }
  }


  /** Record the names of an `ATOMS` header, `names[k]` under index `j + k`. A name
      given twice keeps its last index. */
  function AddColumns(columns: map<string, int>, names: seq<string>, j: nat): (c: map<string, int>)
    ensures forall k :: k in c <==> k in columns || k in names
    ensures forall k :: k in c && k !in names ==> c[k] == columns[k]
    ensures forall k :: k in names ==> j <= c[k] < j + |names| && names[c[k] - j] == k
    decreases |names|
  {
    if names == [] then columns
    else
      var c := AddColumns(columns[names[0] := j], names[1..], j + 1);
      assert forall k :: k in names <==> k == names[0] || k in names[1..];
      c
  }

  /** A name given twice keeps its last index: no later header name repeats it. */
  lemma {:induction false} AddColumnsKeepsLast(columns: map<string, int>, names: seq<string>, j: nat)
    ensures var c := AddColumns(columns, names, j);
      forall k, i :: k in names && c[k] - j < i < |names| ==> names[i] != k
    decreases |names|
  {
    if names != [] {
      var c := AddColumns(columns, names, j);
      var rest := names[1..];
      assert c == AddColumns(columns[names[0] := j], rest, j + 1);
      AddColumnsKeepsLast(columns[names[0] := j], rest, j + 1);
      forall k, i | k in names && c[k] - j < i < |names| ensures names[i] != k {
        assert names[i] == rest[i - 1];
      }
    }
  }

  /** The first requested field, in request order, that no header has named. */
  function FirstMissing(args: seq<string>, columns: map<string, int>): (m: Option<string>)
    ensures m.None? <==> forall a :: a in args ==> a in columns
    ensures m.Some? ==> m.value !in columns && exists i ::
      && 0 <= i < |args| && args[i] == m.value
      && forall k :: 0 <= k < i ==> args[k] in columns
  {
    if args == [] then None
    else if args[0] !in columns then Some(args[0])
    else
      var m := FirstMissing(args[1..], columns);
      if m.Some? then
        var i :| 0 <= i < |args[1..]| && args[1..][i] == m.value
          && forall k :: 0 <= k < i ==> args[1..][k] in columns;
        assert args[i + 1] == m.value;
        m
      else m
  }

  /** Fill a record from one data line: for each requested field in turn, store the
      token of its column through the slot writer, then apply text mode's periodic
      correction for that field. The first field the writer refuses stops the line. */
  function BuildAtom(ad: AtomData, args: seq<string>, columns: map<string, int>, v: seq<string>, box: Box, conv: Conversions)
    : (res: Result<AtomData, string>)
    requires forall a :: a in args ==> a in columns && 0 <= columns[a] < |v|
    ensures res.Failure? <==> exists a :: a in args && AssignTarget(a) == NullProperty
    ensures res.Failure? ==> res.error in args && AssignTarget(res.error) == NullProperty
    decreases |args|
  {
    if args == [] then Success(ad)
    else
      var prop := args[0];
      match UpdateAtomData(ad, prop, v[columns[prop]], conv)
      case None => Failure(prop)
      case Some(ad') => BuildAtom(TextCorrection(ad', prop, box), args[1..], columns, v, box, conv)
  }

  /** An `ITEM: TIMESTEP` tag. The second one in a call ends the frame: `End` fires and
      the reader stays in front of the tag. The first fires `Start`, showing the
      timestep of the previous frame, and then reads the new timestep from the next
      line, failing when there is none. */
  function TimestepItem(r: Reader, s: Scan, args: seq<string>, conv: Conversions): (st: Step)
    requires Valid(r) && !r.eof && r.pos < |r.contents.lines| && Consistent(s, args)
    requires IsTimestepTag(r.contents.lines[r.pos])
    ensures StepOk(r, s, args, st)
  {
    var lines := r.contents.lines;
    if s.inside then Stop(ReadResult(Read, s.trace + [End(r.lastTstep)], r))
    else
      var trace := s.trace + [Start(r.lastTstep)];
      if r.pos + 1 == |lines| then
        Stop(ReadResult(Failed(MissingTimestepValue), trace, r.(pos := |lines|, eof := true)))
      else
        Continue(r.(lastTstep := conv.atoi(lines[r.pos + 1]), pos := r.pos + 2), s.(inside := true, trace := trace))
  }

  /** An `ITEM: NUMBER` tag: the next line holds the atom count. */
  function NumberItem(r: Reader, s: Scan, args: seq<string>, conv: Conversions): (st: Step)
    requires Valid(r) && !r.eof && r.pos < |r.contents.lines| && Consistent(s, args)
    ensures StepOk(r, s, args, st)
  {
    var lines := r.contents.lines;
    if r.pos + 1 == |lines| then
      Stop(ReadResult(Failed(MissingAtomCount), s.trace, r.(pos := |lines|, eof := true)))
    else
      Continue(r.(nAtoms := conv.atoi(lines[r.pos + 1]), pos := r.pos + 2), s)
  }

  /** An `ITEM: BOX` tag: the tag line needs six tokens; the boundary letters are
      stored, then up to three bounds lines are read, and `BoxBounds` fires unless a
      bounds line is malformed. Whatever was stored before a failure stays stored. */
  function BoxItem(r: Reader, v: seq<string>, s: Scan, args: seq<string>, conv: Conversions): (st: Step)
    requires Valid(r) && !r.eof && r.pos < |r.contents.lines| && Consistent(s, args)
    requires forall i :: 0 <= i < |v| ==> IsToken(v[i])
    ensures StepOk(r, s, args, st)
  {
    if |v| < 6 then Stop(ReadResult(Failed(MalformedBoxHeader), s.trace, r.(pos := r.pos + 1)))
    else
      assert forall i :: 0 <= i < |v| ==> |v[i]| > 0 by {
        forall i | 0 <= i < |v| ensures |v[i]| > 0 { assert IsToken(v[i]); }
      }
      var b := ReadBounds(r.contents.lines, r.pos + 1, 0, r.box.lo, r.box.hi, conv);
      var r' := r.(box := Box(HeaderSides(v), b.lo, b.hi), pos := b.pos);
      if !b.ok then Stop(ReadResult(Failed(MalformedBoundsLine), s.trace, r'))
      else Continue(r', s.(trace := s.trace + [BoxBounds(r'.box)]))
  }

  /** An `ITEM: ATOMS` tag: its remaining tokens name the columns; every requested
      field must be among the names known so far. */
  function AtomsItem(r: Reader, v: seq<string>, s: Scan, args: seq<string>): (st: Step)
    requires Valid(r) && !r.eof && r.pos < |r.contents.lines| && Consistent(s, args)
    requires |v| >= 2
    ensures StepOk(r, s, args, st)
  {
    var columns := AddColumns(s.columns, v[2..], 0);
    var avail := s.avail + v[2..];
    match FirstMissing(args, columns)
    case Some(a) => Stop(ReadResult(Failed(MissingColumn(a)), s.trace, r.(pos := r.pos + 1)))
    case None => Continue(r.(pos := r.pos + 1), s.(columns := columns, avail := avail))
  }

  /** A line that is not a tag: it needs exactly as many tokens as the headers have
      named columns; then its atom is built and `Atom` fires. */
  function DataLine(r: Reader, v: seq<string>, s: Scan, args: seq<string>, conv: Conversions): (st: Step)
    requires Valid(r) && !r.eof && r.pos < |r.contents.lines| && Consistent(s, args)
    requires |v| > 0
    ensures StepOk(r, s, args, st)
  {
    if |v| != |s.avail| then Stop(ReadResult(Failed(ColumnCountMismatch), s.trace, r.(pos := r.pos + 1)))
    else
      match BuildAtom(Zero(), args, s.columns, v, r.box, conv)
      case Failure(prop) => Stop(ReadResult(Failed(UnsupportedProperty(prop)), s.trace, r.(pos := r.pos + 1)))
      case Success(ad) => Continue(r.(pos := r.pos + 1), s.(trace := s.trace + [Atom(ad)]))
  }

  /** Dispatch the line at the current position. A line with no token, or a tag line
      with no second token, is indexed past its end: the outcome is undefined. Tags
      other than the four known ones are skipped. */
  function StepLine(r: Reader, args: seq<string>, conv: Conversions, s: Scan): (st: Step)
    requires Valid(r) && !r.eof && r.pos < |r.contents.lines| && Consistent(s, args)
    ensures StepOk(r, s, args, st)
  {
    var v := Explode(r.contents.lines[r.pos]);
    if |v| == 0 then Stop(ReadResult(Undefined, s.trace, r))
    else if v[0] == "ITEM:" then
      if |v| < 2 then Stop(ReadResult(Undefined, s.trace, r))
      else if v[1] == "TIMESTEP" then TimestepItem(r, s, args, conv)
      else if v[1] == "NUMBER" then NumberItem(r, s, args, conv)
      else if v[1] == "BOX" then BoxItem(r, v, s, args, conv)
      else if v[1] == "ATOMS" then AtomsItem(r, v, s, args)
      else Continue(r.(pos := r.pos + 1), s)
    else DataLine(r, v, s, args, conv)
  }

  /** What a call from reader `r` and scan `s` promises about its result: the file is
      the same, the position has not gone back, and hooks were only added. A true return
      ends with the one `End` of the call, has at most one `Start`, and leaves the reader
      at the end of the file or in front of the next frame's tag, having moved unless a
      frame was already open. Any other return adds no `End`. */
  predicate Delivers(r: Reader, s: Scan, res: ReadResult) {
    && Valid(res.reader) && SameFile(r, res.reader) && res.reader.pos >= r.pos
    && Extends(res.trace, s.trace)
    && (res.outcome.Read? ==>
          && |res.trace| > |s.trace|
          && res.trace[|res.trace| - 1] == End(res.reader.lastTstep)
          && NoEnd(res.trace[..|res.trace| - 1])
          && AtMostOneStart(res.trace)
          && Resumable(res.reader)
          && (s.inside || res.reader.eof || res.reader.pos > r.pos))
    && (!res.outcome.Read? ==> NoEnd(res.trace) && AtMostOneStart(res.trace))
  }

  /** Dispatch lines until a step stops the call or the file ends; the end of the file
      closes the frame with `End` and a true return. */
  function Run(r: Reader, args: seq<string>, conv: Conversions, s: Scan): (res: ReadResult)
    requires Valid(r) && !r.eof && Consistent(s, args)
    ensures Delivers(r, s, res)
    decreases |r.contents.lines| - r.pos, 1
  {
    if r.pos == |r.contents.lines| then ReadResult(Read, s.trace + [End(r.lastTstep)], r.(eof := true))
    else Proceed(r, args, conv, s, StepLine(r, args, conv, s))
  }

  /** Act on the step taken from the line at the current position: stop with its
      result, or go on from where it leaves the reader. */
  function Proceed(r: Reader, args: seq<string>, conv: Conversions, s: Scan, st: Step): (res: ReadResult)
    requires Valid(r) && !r.eof && r.pos < |r.contents.lines| && Consistent(s, args)
    requires StepOk(r, s, args, st)
    ensures Delivers(r, s, res)
    decreases |r.contents.lines| - r.pos, 0
  {
    match st
    case Stop(res) => res
    case Continue(r', s') => Run(r', args, conv, s')
  }

  /** One text-mode frame read: false with no hook when the end of the file has been
      reached before, otherwise the lines from the current position. */
  function ReadTextFrame(r: Reader, args: seq<string>, conv: Conversions): (res: ReadResult)
    requires Valid(r)
    ensures r.eof ==> res == ReadResult(Failed(AtEnd), [], r)
    ensures Valid(res.reader) && SameFile(r, res.reader)
    ensures res.outcome.Read? ==>
      && |res.trace| > 0
      && res.trace[|res.trace| - 1] == End(res.reader.lastTstep)
      && NoEnd(res.trace[..|res.trace| - 1])
      && AtMostOneStart(res.trace)
      && Resumable(res.reader)
      && (res.reader.eof || res.reader.pos > r.pos)
    ensures !res.outcome.Read? ==> NoEnd(res.trace) && AtMostOneStart(res.trace)
  {
    if r.eof then ReadResult(Failed(AtEnd), [], r) else Run(r, args, conv, Fresh)
  }
}
