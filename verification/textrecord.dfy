/** What a text-mode atom record holds once a data line has been stored in it: each
    requested field's slot holds its token, converted by the slot's kind and, for a
    wrapped coordinate, corrected into its range; every other slot is as it was, which
    for the zeroed record the reader starts from means zero. */
module TextRecord {
  import opened Properties
  import opened Atoms
  import opened Periodic
  import opened TextFrame

  /** What slot `p` should hold for token `tok`: `atoi` of it in an integer slot,
      otherwise `atof` of it with the periodic correction of that slot. */
  function Stored(p: Property, tok: string, box: Box, conv: Conversions): (v: Value)
    requires p != NullProperty
    ensures Fits(p, v)
  {
    if IsIntegerSlot(p) then IntValue(conv.atoi(tok)) else RealValue(CorrectCoordinate(p, conv.atof(tok), box))
  }

  /** Text mode's `zs` after its correction: only the lower-side wrap takes effect. */
  function ZsAsCorrected(t: real, box: Box): real {
    if box.boundaries[2].lower == 'p' && t < 0.0 then t + 1.0 else t
  }

  /** Whether text mode's upper-side wrap fires for a `zs` value, lowering `z`. */
  predicate ZsLowersZ(t: real, box: Box) {
    !(box.boundaries[2].lower == 'p' && t < 0.0) && box.boundaries[2].upper == 'p' && t >= 1.0
  }

  /** Some requested field is stored in slot `q`. */
  predicate Names(args: seq<string>, q: Property) {
    exists a :: a in args && AssignTarget(a) == q
  }

  /** A slot no requested field names keeps its value, and so does `z` unless `zs` is
      requested. */
  predicate KeepsOthers(ad: AtomData, out: AtomData, args: seq<string>) {
    forall q :: q != NullProperty && !Names(args, q) && (q == Z ==> "zs" !in args) ==> Get(out, q) == Get(ad, q)
  }

  /** The slot of every requested field other than `zs` holds the field's token as
      stored, except `z` when `zs` is requested too. */
  predicate HoldsFields(out: AtomData, args: seq<string>, columns: map<string, int>, v: seq<string>, box: Box, conv: Conversions)
    requires forall a :: a in args ==> a in columns && 0 <= columns[a] < |v|
  {
    forall a :: a in args && AssignTarget(a) != NullProperty && a != "zs" && !(a == "z" && "zs" in args) ==>
      Get(out, AssignTarget(a)) == Stored(AssignTarget(a), v[columns[a]], box, conv)
  }

  /** A requested `zs` holds its token wrapped on the lower side only. */
  predicate HoldsZs(out: AtomData, args: seq<string>, columns: map<string, int>, v: seq<string>, box: Box, conv: Conversions)
    requires forall a :: a in args ==> a in columns && 0 <= columns[a] < |v|
  {
    "zs" in args ==> GetReal(out, Zs) == ZsAsCorrected(conv.atof(v[columns["zs"]]), box)
  }

  /** When `zs` is requested and `z` is not, `z` is lowered by one for each time `zs`
      is requested, if the upper-side wrap of `zs` fires. */
  predicate LowersZ(ad: AtomData, out: AtomData, args: seq<string>, columns: map<string, int>, v: seq<string>, box: Box, conv: Conversions)
    requires forall a :: a in args ==> a in columns && 0 <= columns[a] < |v|
  {
    "zs" in args && "z" !in args ==>
      GetReal(out, Z) == GetReal(ad, Z)
        - (if ZsLowersZ(conv.atof(v[columns["zs"]]), box) then multiset(args)["zs"] as real else 0.0)
  }

  /** `out` is `ad` with the requested fields of data line `v` stored as text mode
      stores them. */
  predicate Filled(ad: AtomData, out: AtomData, args: seq<string>, columns: map<string, int>, v: seq<string>,
                   box: Box, conv: Conversions)
    requires forall a :: a in args ==> a in columns && 0 <= columns[a] < |v|
  {
    && KeepsOthers(ad, out, args)
    && HoldsFields(out, args, columns, v, box, conv)
    && HoldsZs(out, args, columns, v, box, conv)
    && LowersZ(ad, out, args, columns, v, box, conv)
  }

  /** Two names the slot writer stores in the same slot are the same name. */
  lemma AssignTargetInjective(a: string, b: string)
    requires AssignTarget(a) != NullProperty && AssignTarget(a) == AssignTarget(b)
    ensures a == b
  {
    AssignTargetIsResolution(a);
    AssignTargetIsResolution(b);
    ResolvedNameMatches(a);
    ResolvedNameMatches(b);
  }

  /** A field the list does not request names a slot no field of the list names. */
  lemma NotNamed(args: seq<string>, n: string)
    requires n !in args && AssignTarget(n) != NullProperty
    ensures !Names(args, AssignTarget(n))
  {
    forall b | b in args ensures AssignTarget(b) != AssignTarget(n) {
      if AssignTarget(b) == AssignTarget(n) { AssignTargetInjective(n, b); }
    }
  }

  /** What storing field `a`, other than `zs`, with token `tok` does to record `ad`,
      giving `ad1`: its slot holds the stored token and no other slot changes. */
  predicate StoredField(ad: AtomData, ad1: AtomData, p: Property, tok: string, box: Box, conv: Conversions)
    requires p != NullProperty
  {
    && Get(ad1, p) == Stored(p, tok, box, conv)
    && forall q :: q != NullProperty && q != p ==> Get(ad1, q) == Get(ad, q)
  }

  /** What storing `zs` with token `tok` does to record `ad`, giving `ad1`: `zs` is
      wrapped on the lower side only, `z` drops by one when the upper-side wrap fires,
      and no other slot changes. */
  predicate StoredZs(ad: AtomData, ad1: AtomData, tok: string, box: Box, conv: Conversions) {
    && GetReal(ad1, Zs) == ZsAsCorrected(conv.atof(tok), box)
    && GetReal(ad1, Z) == GetReal(ad, Z) - (if ZsLowersZ(conv.atof(tok), box) then 1.0 else 0.0)
    && forall q :: q != NullProperty && q != Zs && q != Z ==> Get(ad1, q) == Get(ad, q)
  }

  /** Storing a field other than `zs`: the slot writer followed by text mode's
      correction for it is the intended store. */
  lemma StoreField(ad: AtomData, a: string, tok: string, box: Box, conv: Conversions)
    requires AssignTarget(a) != NullProperty && a != "zs"
    ensures StoredField(ad, TextCorrection(UpdateAtomData(ad, a, tok, conv).value, a, box), AssignTarget(a), tok, box, conv)
  {
    var ad0 := UpdateAtomData(ad, a, tok, conv).value;
    AssignTargetIsResolution(a);
    TextCorrectionAgreesExceptZs(ad0, a, box);
  }

  /** Storing `zs`: the slot writer followed by text mode's correction for it. */
  lemma StoreZs(ad: AtomData, tok: string, box: Box, conv: Conversions)
    ensures StoredZs(ad, TextCorrection(UpdateAtomData(ad, "zs", tok, conv).value, "zs", box), tok, box, conv)
  {
    TextCorrectionOfZs(UpdateAtomData(ad, "zs", tok, conv).value, box);
  }

  /** What storing field `a` with token `tok` does to record `ad`, giving `ad1`. */
  predicate StoredOne(ad: AtomData, ad1: AtomData, a: string, tok: string, box: Box, conv: Conversions)
    requires AssignTarget(a) != NullProperty
  {
    && (a != "zs" ==> StoredField(ad, ad1, AssignTarget(a), tok, box, conv))
    && (a == "zs" ==> StoredZs(ad, ad1, tok, box, conv))
  }

  /** Storing one field: the slot writer followed by text mode's correction for it. */
  lemma StoreOneField(ad: AtomData, a: string, tok: string, box: Box, conv: Conversions)
    requires AssignTarget(a) != NullProperty
    ensures StoredOne(ad, TextCorrection(UpdateAtomData(ad, a, tok, conv).value, a, box), a, tok, box, conv)
  {
    if a == "zs" { StoreZs(ad, tok, box, conv); } else { StoreField(ad, a, tok, box, conv); }
  }

  lemma KeepsOthersStep(ad: AtomData, ad1: AtomData, out: AtomData, a0: string, rest: seq<string>, tok: string, box: Box, conv: Conversions)
    requires AssignTarget(a0) != NullProperty
    requires StoredOne(ad, ad1, a0, tok, box, conv) == true
    requires KeepsOthers(ad1, out, rest) == true
    ensures KeepsOthers(ad, out, [a0] + rest)
  {
    var args := [a0] + rest;
    var p0 := AssignTarget(a0);
    forall q | q != NullProperty && !Names(args, q) && (q == Z ==> "zs" !in args)
      ensures Get(out, q) == Get(ad, q)
    {
      assert a0 in args;
      assert q != p0;
      assert !Names(rest, q) by {
        forall b | b in rest ensures AssignTarget(b) != q { assert b in args; }
      }
      assert Get(out, q) == Get(ad1, q);
      if a0 == "zs" {
        assert q != Z;
        assert StoredZs(ad, ad1, tok, box, conv);
      } else {
        assert StoredField(ad, ad1, p0, tok, box, conv);
      }
    }
  }

  lemma HoldsFieldsStep(ad1: AtomData, out: AtomData, a0: string, rest: seq<string>, columns: map<string, int>, v: seq<string>, box: Box, conv: Conversions)
    requires forall a :: a in [a0] + rest ==> a in columns && 0 <= columns[a] < |v|
    requires AssignTarget(a0) != NullProperty
    requires a0 != "zs" ==> Get(ad1, AssignTarget(a0)) == Stored(AssignTarget(a0), v[columns[a0]], box, conv)
    requires KeepsOthers(ad1, out, rest) == true
    requires HoldsFields(out, rest, columns, v, box, conv) == true
    ensures HoldsFields(out, [a0] + rest, columns, v, box, conv)
  {
    var args := [a0] + rest;
    forall a | a in args && AssignTarget(a) != NullProperty && a != "zs" && !(a == "z" && "zs" in args)
      ensures Get(out, AssignTarget(a)) == Stored(AssignTarget(a), v[columns[a]], box, conv)
    {
      if a !in rest {
        assert a == a0;
        NotNamed(rest, a0);
      }
    }
  }

  lemma HoldsZsStep(ad1: AtomData, out: AtomData, a0: string, rest: seq<string>, columns: map<string, int>, v: seq<string>, box: Box, conv: Conversions)
    requires forall a :: a in [a0] + rest ==> a in columns && 0 <= columns[a] < |v|
    requires a0 == "zs" ==> GetReal(ad1, Zs) == ZsAsCorrected(conv.atof(v[columns[a0]]), box)
    requires KeepsOthers(ad1, out, rest) == true
    requires HoldsZs(out, rest, columns, v, box, conv) == true
    ensures HoldsZs(out, [a0] + rest, columns, v, box, conv)
  {
    if "zs" in [a0] + rest && "zs" !in rest {
      assert a0 == "zs";
      NotNamed(rest, "zs");
    }
  }

  /** Counting a name in a list that starts with `a0`. */
  lemma CountFirst(a0: string, rest: seq<string>, n: string)
    ensures multiset([a0] + rest)[n] == (if a0 == n then 1 else 0) + multiset(rest)[n]
  {
    assert multiset([a0] + rest) == multiset{a0} + multiset(rest);
  }

  /** `LowersZ` carried over a first field of `zs`. */
  lemma LowersZAfterZs(ad: AtomData, ad1: AtomData, out: AtomData, rest: seq<string>, columns: map<string, int>, v: seq<string>, box: Box, conv: Conversions)
    requires forall a :: a in ["zs"] + rest ==> a in columns && 0 <= columns[a] < |v|
    requires StoredZs(ad, ad1, v[columns["zs"]], box, conv) == true
    requires KeepsOthers(ad1, out, rest) == true
    requires LowersZ(ad1, out, rest, columns, v, box, conv) == true
    ensures LowersZ(ad, out, ["zs"] + rest, columns, v, box, conv)
  {
    var args := ["zs"] + rest;
    if "z" !in args {
      assert forall b :: b in rest ==> b in args;
      CountFirst("zs", rest, "zs");
      if "zs" !in rest {
        NotNamed(rest, "z");
      }
    }
  }

  /** `LowersZ` carried over a first field other than `zs`. */
  lemma LowersZAfterField(ad: AtomData, ad1: AtomData, out: AtomData, a0: string, rest: seq<string>, columns: map<string, int>, v: seq<string>, box: Box, conv: Conversions)
    requires forall a :: a in [a0] + rest ==> a in columns && 0 <= columns[a] < |v|
    requires AssignTarget(a0) != NullProperty && a0 != "zs"
    requires StoredField(ad, ad1, AssignTarget(a0), v[columns[a0]], box, conv) == true
    requires LowersZ(ad1, out, rest, columns, v, box, conv) == true
    ensures LowersZ(ad, out, [a0] + rest, columns, v, box, conv)
  {
    var args := [a0] + rest;
    if "zs" in args && "z" !in args {
      assert a0 in args && "zs" in rest;
      CountFirst(a0, rest, "zs");
      assert AssignTarget(a0) != Z by {
        if AssignTarget(a0) == Z { AssignTargetInjective("z", a0); }
      }
    }
  }

  /** A data line stored by text mode into a record, when no field is refused, gives
      the record `Filled` describes. */
  lemma {:induction false} BuildAtomFills(ad: AtomData, args: seq<string>, columns: map<string, int>, v: seq<string>,
                                          box: Box, conv: Conversions)
    requires forall a :: a in args ==> a in columns && 0 <= columns[a] < |v|
    ensures var res := BuildAtom(ad, args, columns, v, box, conv);
      res.Success? ==> Filled(ad, res.value, args, columns, v, box, conv)
    decreases |args|
  {
    var res := BuildAtom(ad, args, columns, v, box, conv);
    if args != [] && res.Success? {
      var a0, rest := args[0], args[1..];
      var tok0 := v[columns[a0]];
      var ad1 := TextCorrection(UpdateAtomData(ad, a0, tok0, conv).value, a0, box);
      assert res == BuildAtom(ad1, rest, columns, v, box, conv);
      assert args == [a0] + rest;
      BuildAtomFills(ad1, rest, columns, v, box, conv);
      StoreOneField(ad, a0, tok0, box, conv);
      var out := res.value;
      KeepsOthersStep(ad, ad1, out, a0, rest, tok0, box, conv);
      HoldsFieldsStep(ad1, out, a0, rest, columns, v, box, conv);
      HoldsZsStep(ad1, out, a0, rest, columns, v, box, conv);
      if a0 == "zs" {
        LowersZAfterZs(ad, ad1, out, rest, columns, v, box, conv);
      } else {
        LowersZAfterField(ad, ad1, out, a0, rest, columns, v, box, conv);
      }
    }
  }

  /** A data line as a text read turns it into an `Atom` call: the record starts
      zeroed, so a slot no requested field names is zero. */
  lemma RowRecord(args: seq<string>, columns: map<string, int>, v: seq<string>, box: Box, conv: Conversions)
    requires forall a :: a in args ==> a in columns && 0 <= columns[a] < |v|
    requires forall a :: a in args ==> AssignTarget(a) != NullProperty
    ensures var res := BuildAtom(Zero(), args, columns, v, box, conv);
      && res.Success?
      && Filled(Zero(), res.value, args, columns, v, box, conv)
      && forall q :: q != NullProperty && !Names(args, q) && (q == Z ==> "zs" !in args) ==> Get(res.value, q) == ZeroOf(q)
  {
    BuildAtomFills(Zero(), args, columns, v, box, conv);
  }

  /** With x periodic on both sides of a box from 0 to 10, a text row requesting only
      `x` with the value 11.0 gives an atom at x 1.0, and one with -1.0 an atom at 9.0;
      every other slot is zero. */
  lemma WrappedRowsExample(conv: Conversions)
    requires conv.atof("11.0") == 11.0 && conv.atof("-1.0") == -1.0
    ensures var box := Box([Sides('p', 'p'), Sides('p', 'p'), Sides('p', 'p')], [0.0, 0.0, 0.0], [10.0, 10.0, 10.0]);
      var high := BuildAtom(Zero(), ["x"], map["x" := 0], ["11.0"], box, conv);
      var low := BuildAtom(Zero(), ["x"], map["x" := 0], ["-1.0"], box, conv);
      && high.Success? && GetReal(high.value, X) == 1.0
      && low.Success? && GetReal(low.value, X) == 9.0
      && forall q :: q != NullProperty && q != X ==> Get(high.value, q) == ZeroOf(q) && Get(low.value, q) == ZeroOf(q)
  {
    var box := Box([Sides('p', 'p'), Sides('p', 'p'), Sides('p', 'p')], [0.0, 0.0, 0.0], [10.0, 10.0, 10.0]);
    RowRecord(["x"], map["x" := 0], ["11.0"], box, conv);
    RowRecord(["x"], map["x" := 0], ["-1.0"], box, conv);
    OnlyXNamed();
  }

  /** Requesting only `x` names the slot `x` and no other. */
  lemma OnlyXNamed()
    ensures "x" in ["x"] && "zs" !in ["x"] && "z" !in ["x"]
    ensures forall q :: q != NullProperty && q != X ==> !Names(["x"], q)
  {
    forall q | q != NullProperty && q != X ensures !Names(["x"], q) {
      forall b | b in ["x"] ensures AssignTarget(b) != q { assert b == "x"; }
    }
  }
}
