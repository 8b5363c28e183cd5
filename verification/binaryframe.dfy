/** Binary mode. One call decodes one frame record: a fixed header (timestep, atom
    count, triclinic flag, six boundary codes, six box values, field count, processor
    block count) and then the processor blocks of values, grouped into atoms. */
module BinaryFrame {
  import opened Wrappers
  import opened Properties
  import opened Atoms
  import opened Periodic
  import opened State

  const TwoTo31: int := 0x8000_0000
  const TwoTo32: int := 0x1_0000_0000

  /** A 64-bit header value stored into a 32-bit `int`: the value modulo 2^32, read
      as two's complement. */
  function Narrow32(v: int): (n: int)
    ensures -TwoTo31 <= n < TwoTo31
    ensures (v - n) % TwoTo32 == 0
  {
    (v + TwoTo31) % TwoTo32 - TwoTo31
  }

  /** The two properties above fix the narrowed value: it is the one 32-bit value
      congruent to the input. */
  lemma Narrow32Unique(v: int, m: int)
    requires -TwoTo31 <= m < TwoTo31 && (v - m) % TwoTo32 == 0
    ensures Narrow32(v) == m
  {
    var n := Narrow32(v);
    var k1, k2 := (v - n) / TwoTo32, (v - m) / TwoTo32;
    assert v - n == k1 * TwoTo32;
    assert v - m == k2 * TwoTo32;
    assert m - n == (k1 - k2) * TwoTo32;
  }

  /** A value that fits in 32 bits is kept. */
  lemma Narrow32Keeps(v: int)
    requires -TwoTo31 <= v < TwoTo31
    ensures Narrow32(v) == v
  {
    Narrow32Unique(v, v);
  }

  /** The conversion of a double to `int` for the integer slots: the fraction is
      dropped, rounding toward zero. */
  function TruncateTowardZero(x: real): (n: int)
    ensures 0.0 <= x ==> n as real <= x < n as real + 1.0
    ensures x < 0.0 ==> n as real - 1.0 < x <= n as real
  {
    if x >= 0.0 then x.Floor else -((-x).Floor)
  }

  /** The letter a boundary code stands for: 0 periodic, 1 fixed, 2 shrink-wrapped,
      3 shrink-wrapped with a minimum. Any other code keeps the letter already held. */
  function CodeLetter(code: int, previous: char): char {
    if code == 0 then 'p'
    else if code == 1 then 'f'
    else if code == 2 then 's'
    else if code == 3 then 'm'
    else previous
  }

  /** The boundary letters a header's six codes give, codes 2a and 2a+1 for the lower
      and upper side of axis a. */
  function DecodeSides(previous: Sides3, codes: Codes): Sides3 {
    [Sides(CodeLetter(codes[0], previous[0].lower), CodeLetter(codes[1], previous[0].upper)),
     Sides(CodeLetter(codes[2], previous[1].lower), CodeLetter(codes[3], previous[1].upper)),
     Sides(CodeLetter(codes[4], previous[2].lower), CodeLetter(codes[5], previous[2].upper))]
  }

  /** The box a header describes: values 2a and 2a+1 are the lower and upper bound of
      axis a. */
  function DecodeBox(previous: Sides3, codes: Codes, bounds: Bounds6): Box {
    Box(DecodeSides(previous, codes), [bounds[0], bounds[2], bounds[4]], [bounds[1], bounds[3], bounds[5]])
  }

  /** The four letters a binary header can state. */
  predicate IsCodedLetter(c: char) {
    c == 'p' || c == 'f' || c == 's' || c == 'm'
  }

  /** The code a writer stores for a boundary letter. */
  function LetterCode(c: char): int
    requires IsCodedLetter(c)
  {
    if c == 'p' then 0 else if c == 'f' then 1 else if c == 's' then 2 else 3
  }

  /** The header values a writer stores for a box whose letters are all codable. */
  function EncodeBox(box: Box): (Codes, Bounds6)
    requires forall a :: 0 <= a < 3 ==> IsCodedLetter(box.boundaries[a].lower) && IsCodedLetter(box.boundaries[a].upper)
  {
    var b := box.boundaries;
    ([LetterCode(b[0].lower), LetterCode(b[0].upper), LetterCode(b[1].lower),
      LetterCode(b[1].upper), LetterCode(b[2].lower), LetterCode(b[2].upper)],
     [box.lo[0], box.hi[0], box.lo[1], box.hi[1], box.lo[2], box.hi[2]])
  }

  /** Decoding the header of an encoded box gives the box back, whatever letters the
      reader held before. */
  lemma DecodeEncodeBox(box: Box, previous: Sides3)
    requires forall a :: 0 <= a < 3 ==> IsCodedLetter(box.boundaries[a].lower) && IsCodedLetter(box.boundaries[a].upper)
    ensures var (codes, bounds) := EncodeBox(box); DecodeBox(previous, codes, bounds) == box
  {
    var (codes, bounds) := EncodeBox(box);
    var d := DecodeBox(previous, codes, bounds);
    assert d.boundaries[0] == box.boundaries[0];
    assert d.boundaries[1] == box.boundaries[1];
    assert d.boundaries[2] == box.boundaries[2];
    assert d.boundaries == box.boundaries;
    assert d.lo == box.lo && d.hi == box.hi;
  }

  /** A code outside 0 to 3 leaves its side's letter as it was; a code inside sets it
      independently of what was there. */
  lemma CodeLetterKeepsOrSets(code: int, previous: char)
    ensures !(0 <= code <= 3) ==> CodeLetter(code, previous) == previous
    ensures 0 <= code <= 3 ==>
      && IsCodedLetter(CodeLetter(code, previous))
      && LetterCode(CodeLetter(code, previous)) == code
  {
  }

  /** Resolve the field specification, one name per field, stopping at the first name
      that is no property. */
  function ResolveFields(args: seq<string>): (res: Result<seq<Property>, string>)
    ensures res.Success? <==> forall i :: 0 <= i < |args| ==> StringToProperty(args[i]) != NullProperty
    ensures res.Success? ==>
      && |res.value| == |args|
      && forall i :: 0 <= i < |args| ==> res.value[i] == StringToProperty(args[i])
    ensures res.Failure? ==> res.error in args && StringToProperty(res.error) == NullProperty
  {
    if args == [] then Success([])
    else
      var p := StringToProperty(args[0]);
      if p == NullProperty then Failure(args[0])
      else
        match ResolveFields(args[1..])
        case Failure(e) => Failure(e)
        case Success(rest) => Success([p] + rest)
  }

  /** Store one value in slot `p`, as the binary decoder's switch does: truncated
      toward zero for an integer slot, otherwise as read and then, for a wrapped
      coordinate, corrected for the periodic sides of its axis. */
  function StoreValue(ad: AtomData, p: Property, val: real, box: Box): (r: AtomData)
    requires p != NullProperty
    ensures IsIntegerSlot(p) ==> Get(r, p) == IntValue(TruncateTowardZero(val))
    ensures !IsIntegerSlot(p) ==> GetReal(r, p) == CorrectCoordinate(p, val, box)
    ensures forall q :: q != NullProperty && q != p ==> Get(r, q) == Get(ad, q)
  {
    if IsIntegerSlot(p) then Set(ad, p, IntValue(TruncateTowardZero(val)))
    else SetReal(ad, p, CorrectCoordinate(p, val, box))
  }

  predicate AllKnown(fields: seq<Property>) {
    forall i :: 0 <= i < |fields| ==> fields[i] != NullProperty
  }

  /** One processor block, value by value as the decoder's inner loop takes it: each
      value goes into a freshly zeroed record under field `field`, the field counter
      advances, and when it reaches the field count that record is passed on and the
      counter restarts. */
  function BlockAtoms(block: seq<real>, fields: seq<Property>, box: Box, field: nat): seq<AtomData>
    requires field < |fields| && AllKnown(fields)
    decreases |block|
  {
    if block == [] then []
    else
      var ad := StoreValue(Zero(), fields[field], block[0], box);
      if field + 1 == |fields| then [ad] + BlockAtoms(block[1..], fields, box, 0)
      else BlockAtoms(block[1..], fields, box, field + 1)
  }

  /** The record an atom is passed on as: zero except for the last field, which holds
      the last value of its group. */
  function LastFieldRecord(group: seq<real>, fields: seq<Property>, box: Box): AtomData
    requires |group| == |fields| > 0 && AllKnown(fields)
  {
    StoreValue(Zero(), fields[|fields| - 1], group[|group| - 1], box)
  }

  /** The same block cut into whole groups of `|fields|` values; a trailing partial
      group gives nothing. */
  function GroupRecords(block: seq<real>, fields: seq<Property>, box: Box): seq<AtomData>
    requires |fields| > 0 && AllKnown(fields)
    decreases |block|
  {
    if |block| < |fields| then []
    else [LastFieldRecord(block[..|fields|], fields, box)] + GroupRecords(block[|fields|..], fields, box)
  }

  /** Starting the loop part-way through a group finishes that group first. */
  lemma {:induction false} BlockAtomsFrom(block: seq<real>, fields: seq<Property>, box: Box, field: nat)
    requires field < |fields| && AllKnown(fields)
    ensures BlockAtoms(block, fields, box, field)
      == if |block| < |fields| - field then []
         else [StoreValue(Zero(), fields[|fields| - 1], block[|fields| - field - 1], box)]
              + GroupRecords(block[|fields| - field..], fields, box)
    decreases |block|
  {
    if block != [] {
      var n := |fields|;
      if field + 1 == n {
        BlockAtomsFrom(block[1..], fields, box, 0);
        if |block| >= n + 1 {
          TailShift(block, n - 1);
        }
      } else {
        BlockAtomsFrom(block[1..], fields, box, field + 1);
        if |block| >= n - field {
          TailShift(block, n - field - 2);
        }
      }
    }
  }

  /** Indexing and slicing past the first element, in terms of the whole sequence. */
  lemma TailShift<T>(s: seq<T>, i: nat)
    requires i + 2 <= |s|
    ensures s[1..][i] == s[i + 1]
    ensures s[1..][i + 1..] == s[i + 2..]
    ensures s[1..][..i + 1] == s[1..i + 2]
  {
  }

  /** The decoder's loop over one block passes on exactly the last-field records of
      the whole groups. */
  lemma BlockAtomsAreGroups(block: seq<real>, fields: seq<Property>, box: Box)
    requires |fields| > 0 && AllKnown(fields)
    ensures BlockAtoms(block, fields, box, 0) == GroupRecords(block, fields, box)
  {
    BlockAtomsFrom(block, fields, box, 0);
    if |block| >= |fields| {
      assert block[..|fields|][|fields| - 1] == block[|fields| - 1];
    }
  }

  lemma DivStep(a: int, n: int)
    requires n > 0 && a >= n
    ensures (a - n) / n + 1 == a / n
  {
    var q, rem := a / n, a % n;
    assert a == q * n + rem && 0 <= rem < n;
    assert a - n == (q - 1) * n + rem;
    DivUnique(a - n, n, q - 1, rem);
  }

  lemma DivUnique(a: int, n: int, q: int, rem: int)
    requires n > 0 && 0 <= rem < n && a == q * n + rem
    ensures a / n == q
  {
    var q', r' := a / n, a % n;
    assert a == q' * n + r' && 0 <= r' < n;
    if q' > q {
      MulGap(q', q, n);
    } else if q' < q {
      MulGap(q, q', n);
    }
  }

  lemma MulGap(hi: int, lo: int, n: int)
    requires hi > lo && n > 0
    ensures hi * n >= lo * n + n
  {
    var k := hi - lo;
    assert hi * n == (lo + k) * n;
    assert (lo + k) * n == lo * n + k * n;
    assert k * n >= n;
  }

  /** A block of `m` values holds `m / |fields|` whole groups. */
  lemma {:induction false} GroupCount(block: seq<real>, fields: seq<Property>, box: Box)
    requires |fields| > 0 && AllKnown(fields)
    ensures |GroupRecords(block, fields, box)| == |block| / |fields|
    decreases |block|
  {
    if |block| >= |fields| {
      GroupCount(block[|fields|..], fields, box);
      DivStep(|block|, |fields|);
    }
  }

  /** Each record passed on holds nothing but its group's last value: every slot other
      than the last field's is zero. */
  lemma {:induction false} GroupRecordsHoldLastFieldOnly(block: seq<real>, fields: seq<Property>, box: Box)
    requires |fields| > 0 && AllKnown(fields)
    ensures forall k, q ::
      0 <= k < |GroupRecords(block, fields, box)| && q != NullProperty && q != fields[|fields| - 1] ==>
      Get(GroupRecords(block, fields, box)[k], q) == ZeroOf(q)
    decreases |block|
  {
    if |block| >= |fields| {
      GroupRecordsHoldLastFieldOnly(block[|fields|..], fields, box);
    }
  }

  /** Every block of the atom section, each with its own group counter. A zero field
      count with a non-empty block reads the field list past its end: `None`. */
  function DecodeBlocks(blocks: seq<seq<real>>, fields: seq<Property>, box: Box): (atoms: Option<seq<AtomData>>)
    requires AllKnown(fields)
    ensures atoms.None? <==> |fields| == 0 && exists i :: 0 <= i < |blocks| && blocks[i] != []
    ensures atoms.Some? && |fields| == 0 ==> atoms.value == []
    decreases |blocks|
  {
    if blocks == [] then Some([])
    else if |fields| == 0 then
      if blocks[0] != [] then None
      else
        var rest := DecodeBlocks(blocks[1..], fields, box);
        assert forall i :: 1 <= i < |blocks| ==> blocks[i] == blocks[1..][i - 1];
        rest
    else
      match DecodeBlocks(blocks[1..], fields, box)
      case None => None
      case Some(rest) => Some(BlockAtoms(blocks[0], fields, box, 0) + rest)
  }

  /** The number of whole groups across the blocks. */
  function GroupTotal(blocks: seq<seq<real>>, n: nat): nat
    requires n > 0
  {
    if blocks == [] then 0 else |blocks[0]| / n + GroupTotal(blocks[1..], n)
  }

  /** The whole-group records of every block in turn. */
  function AllGroups(blocks: seq<seq<real>>, fields: seq<Property>, box: Box): seq<AtomData>
    requires |fields| > 0 && AllKnown(fields)
  {
    if blocks == [] then [] else GroupRecords(blocks[0], fields, box) + AllGroups(blocks[1..], fields, box)
  }

  /** The atoms decoded are the whole groups of each block in turn, their number the
      sum over the blocks of whole groups: a partial group at the end of a block is
      dropped, not carried into the next block. */
  lemma {:induction false} DecodeBlocksAreGroups(blocks: seq<seq<real>>, fields: seq<Property>, box: Box)
    requires |fields| > 0 && AllKnown(fields)
    ensures DecodeBlocks(blocks, fields, box) == Some(AllGroups(blocks, fields, box))
    ensures |AllGroups(blocks, fields, box)| == GroupTotal(blocks, |fields|)
    decreases |blocks|
  {
    if blocks != [] {
      DecodeBlocksAreGroups(blocks[1..], fields, box);
      BlockAtomsAreGroups(blocks[0], fields, box);
      GroupCount(blocks[0], fields, box);
    }
  }

  /** The header checks that must all pass before any hook fires. */
  predicate HeaderAccepted(rec: BinRecord, args: seq<string>) {
    && rec.triclinic == 0
    && rec.fieldsPerAtom % TwoTo32 == |args|
    && (forall i :: 0 <= i < |args| ==> StringToProperty(args[i]) != NullProperty)
    && rec.headerOk
  }

  /** One binary frame read. */
  function ReadBinaryFrame(r: Reader, args: seq<string>): (res: ReadResult)
    requires Valid(r)
    ensures Valid(res.reader) && SameFile(r, res.reader)
    ensures r.next == |r.contents.records| ==> res == ReadResult(Failed(AtEnd), [], r)
    ensures r.next < |r.contents.records| ==>
      var rec := r.contents.records[r.next];
      && res.reader.next == r.next + 1
      && res.reader.lastTstep == Narrow32(rec.tstep)
      && res.reader.nAtoms == Narrow32(rec.natoms)
      && (!HeaderAccepted(rec, args) ==> res.outcome.Failed? && res.trace == [])
      && (HeaderAccepted(rec, args) ==>
            && |res.trace| >= 2
            && res.trace[0] == Start(Narrow32(rec.tstep))
            && res.trace[1] == BoxBounds(res.reader.box))
    ensures res.outcome.Read? ==> EndsOnce(res.trace) && AtMostOneStart(res.trace)
    ensures !res.outcome.Read? ==> NoEnd(res.trace)
  {
    if r.next == |r.contents.records| then ReadResult(Failed(AtEnd), [], r)
    else
      var rec := r.contents.records[r.next];
      var r1 := r.(lastTstep := Narrow32(rec.tstep), nAtoms := Narrow32(rec.natoms), next := r.next + 1);
      if rec.triclinic != 0 then ReadResult(Failed(Triclinic), [], r1)
      else
        var box := DecodeBox(r.box.boundaries, rec.codes, rec.bounds);
        var r2 := r1.(box := box);
        if rec.fieldsPerAtom % TwoTo32 != |args| then ReadResult(Failed(FieldCountMismatch), [], r2)
        else
          match ResolveFields(args)
          case Failure(name) => ReadResult(Failed(UnknownField(name)), [], r2)
          case Success(fields) =>
            if !rec.headerOk then ReadResult(Failed(CorruptHeader), [], r2)
            else
              var head := [Start(r2.lastTstep), BoxBounds(box)];
              match DecodeBlocks(rec.blocks, fields, box)
              case None => ReadResult(Undefined, head, r2)
              case Some(atoms) =>
                var trace := head + AtomEvents(atoms);
                if |atoms| != r2.nAtoms then ReadResult(Failed(AtomCountMismatch(|atoms|)), trace, r2)
                else ReadResult(Read, trace + [End(r2.lastTstep)], r2)
  }

  /** One `Atom` event per record, in order. */
  function AtomEvents(atoms: seq<AtomData>): (t: seq<Event>)
    ensures |t| == |atoms| && forall i :: 0 <= i < |t| ==> t[i] == Atom(atoms[i])
  {
    if atoms == [] then [] else [Atom(atoms[0])] + AtomEvents(atoms[1..])
  }

  /** The header checks in the decoder's order, each failing with no hook called: the
      end of the data, a triclinic box, a field count other than the number of names
      given (compared as an unsigned 32-bit value), a name that is no property, and a
      failed read anywhere in the header. */
  lemma BinaryHeaderFailures(r: Reader, args: seq<string>)
    requires Valid(r) && r.next < |r.contents.records|
    ensures var rec := r.contents.records[r.next];
      var res := ReadBinaryFrame(r, args);
      if rec.triclinic != 0 then res.outcome == Failed(Triclinic) && res.reader.box == r.box
      else if rec.fieldsPerAtom % TwoTo32 != |args| then res.outcome == Failed(FieldCountMismatch)
      else if exists i :: 0 <= i < |args| && StringToProperty(args[i]) == NullProperty then
        res.outcome.Failed? && res.outcome.why.UnknownField?
        && StringToProperty(res.outcome.why.name) == NullProperty && res.outcome.why.name in args
      else if !rec.headerOk then res.outcome == Failed(CorruptHeader)
      else res.trace[..2] == [Start(Narrow32(rec.tstep)), BoxBounds(DecodeBox(r.box.boundaries, rec.codes, rec.bounds))]
  {
  }

  /** Once the header is accepted with at least one field, `Start` and `BoxBounds` fire,
      then one `Atom` per whole group of each block; the read is true, and `End` fires,
      exactly when the number of whole groups equals the header's atom count. The atoms
      passed on before a count mismatch stand. */
  lemma BinaryFrameBody(r: Reader, args: seq<string>)
    requires Valid(r) && r.next < |r.contents.records|
    requires HeaderAccepted(r.contents.records[r.next], args) && |args| > 0
    ensures var rec := r.contents.records[r.next];
      var res := ReadBinaryFrame(r, args);
      var total := GroupTotal(rec.blocks, |args|);
      var box := DecodeBox(r.box.boundaries, rec.codes, rec.bounds);
      var fields := ResolveFields(args).value;
      var body := [Start(Narrow32(rec.tstep)), BoxBounds(box)] + AtomEvents(AllGroups(rec.blocks, fields, box));
      && res.reader.box == box
      && |AllGroups(rec.blocks, fields, box)| == total
      && (res.outcome.Read? <==> total == Narrow32(rec.natoms))
      && (res.outcome.Read? ==> res.trace == body + [End(Narrow32(rec.tstep))])
      && (!res.outcome.Read? ==> res.outcome == Failed(AtomCountMismatch(total)) && res.trace == body)
  {
    var rec := r.contents.records[r.next];
    var box := DecodeBox(r.box.boundaries, rec.codes, rec.bounds);
    var fields := ResolveFields(args).value;
    DecodeBlocksAreGroups(rec.blocks, fields, box);
  }

  /** With no field at all, a non-empty block is read past the end of the field list;
      with only empty blocks the frame holds no atom and is read exactly when the
      header's atom count is zero. */
  lemma BinaryFrameWithoutFields(r: Reader)
    requires Valid(r) && r.next < |r.contents.records|
    requires HeaderAccepted(r.contents.records[r.next], [])
    ensures var rec := r.contents.records[r.next];
      var res := ReadBinaryFrame(r, []);
      && (res.outcome.Undefined? <==> exists i :: 0 <= i < |rec.blocks| && rec.blocks[i] != [])
      && (!res.outcome.Undefined? ==> (res.outcome.Read? <==> Narrow32(rec.natoms) == 0))
  {
  }
}
