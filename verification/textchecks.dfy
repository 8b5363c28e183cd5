/** The checks a text-mode read makes line by line, each stated for every reader and
    every file: what stops the read, with which return, and what is left stored. */
module TextChecks {
  import opened Tokenize
  import opened Atoms
  import opened Periodic
  import opened State
  import opened TextFrame
  import opened TextDump

  /** A line with no token is indexed past its end: the outcome is undefined. */
  lemma RunAtBlankLine(r: Reader, args: seq<string>, conv: Conversions, s: Scan)
    requires Valid(r) && !r.eof && Consistent(s, args)
    requires r.pos < |r.contents.lines| && Explode(r.contents.lines[r.pos]) == []
    ensures Run(r, args, conv, s) == ReadResult(Undefined, s.trace, r)
  {
  }

  /** A line whose only token is `ITEM:` has its second token read past the end of
      the list: the outcome is undefined. */
  lemma RunAtBareTag(r: Reader, args: seq<string>, conv: Conversions, s: Scan)
    requires Valid(r) && !r.eof && Consistent(s, args)
    requires r.pos < |r.contents.lines| && Explode(r.contents.lines[r.pos]) == ["ITEM:"]
    ensures Run(r, args, conv, s) == ReadResult(Undefined, s.trace, r)
  {
  }

  /** The first `TIMESTEP` tag of a call on the last line fires `Start` and then fails
      for want of a value, at the end of the file. */
  lemma RunAtTimestepWithoutValue(r: Reader, args: seq<string>, conv: Conversions, s: Scan)
    requires Valid(r) && !r.eof && Consistent(s, args) && !s.inside
    requires r.pos + 1 == |r.contents.lines| && IsTimestepTag(r.contents.lines[r.pos])
    ensures Run(r, args, conv, s)
      == ReadResult(Failed(MissingTimestepValue), s.trace + [Start(r.lastTstep)],
                    r.(pos := |r.contents.lines|, eof := true))
  {
  }

  /** An atom-count tag on the last line fails for want of a value, at the end of the
      file, with no hook called for it. */
  lemma RunAtNumberWithoutValue(r: Reader, args: seq<string>, conv: Conversions, s: Scan)
    requires Valid(r) && !r.eof && Consistent(s, args)
    requires r.pos + 1 == |r.contents.lines|
    requires var v := Explode(r.contents.lines[r.pos]); |v| >= 2 && v[0] == "ITEM:" && v[1] == "NUMBER"
    ensures Run(r, args, conv, s)
      == ReadResult(Failed(MissingAtomCount), s.trace, r.(pos := |r.contents.lines|, eof := true))
  {
    StepLineAtTag(r, args, conv, s, Explode(r.contents.lines[r.pos]));
  }

  /** A `BOX BOUNDS` tag line of fewer than six tokens stops the read: the return is
      false, no hook is called for it and the box is left as it was. */
  lemma RunAtShortBoxTag(r: Reader, args: seq<string>, conv: Conversions, s: Scan)
    requires Valid(r) && !r.eof && Consistent(s, args)
    requires r.pos < |r.contents.lines|
    requires var v := Explode(r.contents.lines[r.pos]); 2 <= |v| < 6 && v[0] == "ITEM:" && v[1] == "BOX"
    ensures Run(r, args, conv, s) == ReadResult(Failed(MalformedBoxHeader), s.trace, r.(pos := r.pos + 1))
  {
    StepLineAtTag(r, args, conv, s, Explode(r.contents.lines[r.pos]));
  }

  /** A line dispatched to a stop ends the read with the stop's result. */
  lemma RunStops(r: Reader, args: seq<string>, conv: Conversions, s: Scan, res: ReadResult)
    requires Valid(r) && !r.eof && r.pos < |r.contents.lines| && Consistent(s, args)
    requires StepLine(r, args, conv, s) == Stop(res)
    ensures Run(r, args, conv, s) == res
  {
  }

  /** A six-token box tag whose bounds lines fail stops the read with the tag's
      boundary letters stored. */
  lemma BoxItemFails(r: Reader, v: seq<string>, s: Scan, args: seq<string>, conv: Conversions)
    requires Valid(r) && !r.eof && r.pos < |r.contents.lines| && Consistent(s, args)
    requires |v| >= 6 && forall i :: 0 <= i < |v| ==> IsToken(v[i]) && |v[i]| > 0
    requires !ReadBounds(r.contents.lines, r.pos + 1, 0, r.box.lo, r.box.hi, conv).ok
    ensures var b := ReadBounds(r.contents.lines, r.pos + 1, 0, r.box.lo, r.box.hi, conv);
      BoxItem(r, v, s, args, conv)
        == Stop(ReadResult(Failed(MalformedBoundsLine), s.trace, r.(box := Box(HeaderSides(v), b.lo, b.hi), pos := b.pos)))
  {
  }

  /** A bounds line of fewer than two tokens, after a complete `BOX BOUNDS` tag line and
      only complete bounds lines, stops the read there: the return is false and
      `BoxBounds` does not fire, yet the tag's boundary letters are already stored. */
  lemma RunAtShortBoundsLine(r: Reader, args: seq<string>, conv: Conversions, s: Scan, k: nat)
    requires Valid(r) && !r.eof && Consistent(s, args)
    requires r.pos < |r.contents.lines|
    requires var v := Explode(r.contents.lines[r.pos]); |v| >= 6 && v[0] == "ITEM:" && v[1] == "BOX"
    requires k < 3 && r.pos + 1 + k < |r.contents.lines| && |Explode(r.contents.lines[r.pos + 1 + k])| < 2
    requires PairLines(r.contents.lines, r.pos + 1, r.pos + 1 + k)
    ensures var res := Run(r, args, conv, s);
      && res.outcome == Failed(MalformedBoundsLine) && res.trace == s.trace
      && res.reader.pos == r.pos + 2 + k
      && (forall a :: 0 <= a < 3 ==>
            var t := Explode(r.contents.lines[r.pos])[a + 3];
            res.reader.box.boundaries[a] == Sides(Letter(t, 0), Letter(t, 1)))
  {
    var v := Explode(r.contents.lines[r.pos]);
    var b := ReadBounds(r.contents.lines, r.pos + 1, 0, r.box.lo, r.box.hi, conv);
    StepLineAtTag(r, args, conv, s, v);
    ReadBoundsFailsAt(r.contents.lines, r.pos + 1, 0, r.box.lo, r.box.hi, conv, k);
    BoxItemFails(r, v, s, args, conv);
    RunStops(r, args, conv, s, ReadResult(Failed(MalformedBoundsLine), s.trace, r.(box := Box(HeaderSides(v), b.lo, b.hi), pos := b.pos)));
  }

  /** A data line whose token count differs from the number of columns named so far
      stops the read: the return is false and no `Atom` fires for it. Before any
      `ATOMS` header no column is named, so every data line stops the read. */
  lemma RunAtColumnCountMismatch(r: Reader, args: seq<string>, conv: Conversions, s: Scan)
    requires Valid(r) && !r.eof && Consistent(s, args)
    requires r.pos < |r.contents.lines|
    requires var v := Explode(r.contents.lines[r.pos]); |v| > 0 && v[0] != "ITEM:" && |v| != |s.avail|
    ensures Run(r, args, conv, s) == ReadResult(Failed(ColumnCountMismatch), s.trace, r.(pos := r.pos + 1))
  {
  }

  /** A tag other than `TIMESTEP`, `NUMBER`, `BOX` and `ATOMS` is skipped: the read goes
      on from the next line as if the tag were not there. */
  lemma RunSkipsOtherTags(r: Reader, args: seq<string>, conv: Conversions, s: Scan)
    requires Valid(r) && !r.eof && Consistent(s, args)
    requires r.pos < |r.contents.lines|
    requires var v := Explode(r.contents.lines[r.pos]);
      |v| >= 2 && v[0] == "ITEM:" && v[1] != "TIMESTEP" && v[1] != "NUMBER" && v[1] != "BOX" && v[1] != "ATOMS"
    ensures Run(r, args, conv, s) == Run(r.(pos := r.pos + 1), args, conv, s)
  {
  }
}
