/** The per-atom record handed to the consumer, and the text-mode routine that
    writes one named slot of it from a token. */
module Atoms {
  import opened Wrappers
  import opened Properties

  /** The content of one slot: an integer slot holds an `int`, every other a `real`. */
  datatype Value = IntValue(i: int) | RealValue(r: real)

  /** A value fits a slot when its kind is the slot's kind. */
  predicate Fits(p: Property, v: Value) {
    v.IntValue? <==> IsIntegerSlot(p)
  }

  /** The record has one slot per data tag and each slot holds a value of its kind. */
  predicate IsRecord(m: map<Property, Value>) {
    && (forall p :: p in m <==> p != NullProperty)
    && (forall p :: p in m ==> Fits(p, m[p]))
  }

  /** The zero of a slot's kind. */
  function ZeroOf(p: Property): (v: Value)
    ensures Fits(p, v)
  {
    if IsIntegerSlot(p) then IntValue(0) else RealValue(0.0)
  }

  /** The record with every slot zero, as the reader clears it before filling it. */
  function Zero(): (m: map<Property, Value>)
    ensures IsRecord(m)
  {
    map p | p != NullProperty :: ZeroOf(p)
  }

  /** One atom's properties: the thirty slots of the reader's record, six integer
      slots (`id`, `type`, `mol`, `ix`, `iy`, `iz`) and twenty-four real ones,
      addressed by their data tag. */
  type AtomData = m: map<Property, Value> | IsRecord(m) witness Zero()

  /** The slot of `ad` that tag `p` names. */
  function Get(ad: AtomData, p: Property): (v: Value)
    requires p != NullProperty
    ensures Fits(p, v)
  {
    ad[p]
  }

  /** `ad` with the slot `p` names replaced by `v`. */
  function Set(ad: AtomData, p: Property, v: Value): (r: AtomData)
    requires p != NullProperty && Fits(p, v)
    ensures Get(r, p) == v
    ensures forall q :: q != NullProperty && q != p ==> Get(r, q) == Get(ad, q)
  {
    ad[p := v]
  }

  /** The real held by a real slot. */
  function GetReal(ad: AtomData, p: Property): real
    requires p != NullProperty && !IsIntegerSlot(p)
  {
    Get(ad, p).r
  }

  /** `ad` with the real slot `p` replaced by `v`. */
  function SetReal(ad: AtomData, p: Property, v: real): (r: AtomData)
    requires p != NullProperty && !IsIntegerSlot(p)
    ensures GetReal(r, p) == v
    ensures forall q :: q != NullProperty && q != p ==> Get(r, q) == Get(ad, q)
  {
    Set(ad, p, RealValue(v))
  }

  /** The C library's string-to-number routines, which this model does not look
      inside: `atoi` for integer slots and `atof` for real ones. */
  datatype Conversions = Conversions(atoi: string -> int, atof: string -> real)

  /** What a token converts to when stored in slot `p`. */
  function Convert(conv: Conversions, p: Property, token: string): (v: Value)
    ensures Fits(p, v)
    ensures IsIntegerSlot(p) ==> v == IntValue(conv.atoi(token))
    ensures !IsIntegerSlot(p) ==> v == RealValue(conv.atof(token))
  {
    if IsIntegerSlot(p) then IntValue(conv.atoi(token)) else RealValue(conv.atof(token))
  }

  /** The slot text mode's writer stores a property name into: the names are compared
      in turn with the slot names that have an assignment, and there is none for `mu`.
      The six integer slots are filled with `atoi`, all others with `atof`, which is
      what `Convert` does. */
  function AssignTarget(prop: string): Property {
    if prop == "id" then Id
    else if prop == "type" then Type
    else if prop == "mol" then Mol
    else if prop == "mass" then Mass
    else if prop == "x" then X
    else if prop == "y" then Y
    else if prop == "z" then Z
    else if prop == "xs" then Xs
    else if prop == "ys" then Ys
    else if prop == "zs" then Zs
    else if prop == "xu" then Xu
    else if prop == "yu" then Yu
    else if prop == "zu" then Zu
    else if prop == "xsu" then Xsu
    else if prop == "ysu" then Ysu
    else if prop == "zsu" then Zsu
    else if prop == "ix" then Ix
    else if prop == "iy" then Iy
    else if prop == "iz" then Iz
    else if prop == "vx" then Vx
    else if prop == "vy" then Vy
    else if prop == "vz" then Vz
    else if prop == "fx" then Fx
    else if prop == "fy" then Fy
    else if prop == "fz" then Fz
    else if prop == "q" then Q
    else if prop == "mux" then Mux
    else if prop == "muy" then Muy
    else if prop == "muz" then Muz
    else NullProperty
  }

  /** Text mode's slot writer: store the converted token in the slot the name selects,
      or refuse the name when it selects none. */
  function UpdateAtomData(ad: AtomData, prop: string, val: string, conv: Conversions): Option<AtomData> {
    var p := AssignTarget(prop);
    if p == NullProperty then None else Some(Set(ad, p, Convert(conv, p, val)))
  }

  /** The assignable names are exactly the known names other than `mu`. */
  lemma AssignTargetIsResolution(prop: string)
    ensures AssignTarget(prop)
        == (if StringToProperty(prop) == Mu then NullProperty else StringToProperty(prop))
  {
    if prop == "id" { assert StringToProperty(prop) == Id; }
    else if prop == "type" { assert StringToProperty(prop) == Type; }
    else if prop == "mol" { assert StringToProperty(prop) == Mol; }
    else if prop == "mass" { assert StringToProperty(prop) == Mass; }
    else if prop == "x" { assert StringToProperty(prop) == X; }
    else if prop == "y" { assert StringToProperty(prop) == Y; }
    else if prop == "z" { assert StringToProperty(prop) == Z; }
    else if prop == "xs" { assert StringToProperty(prop) == Xs; }
    else if prop == "ys" { assert StringToProperty(prop) == Ys; }
    else if prop == "zs" { assert StringToProperty(prop) == Zs; }
    else if prop == "xu" { assert StringToProperty(prop) == Xu; }
    else if prop == "yu" { assert StringToProperty(prop) == Yu; }
    else if prop == "zu" { assert StringToProperty(prop) == Zu; }
    else if prop == "xsu" { assert StringToProperty(prop) == Xsu; }
    else if prop == "ysu" { assert StringToProperty(prop) == Ysu; }
    else if prop == "zsu" { assert StringToProperty(prop) == Zsu; }
    else if prop == "ix" { assert StringToProperty(prop) == Ix; }
    else if prop == "iy" { assert StringToProperty(prop) == Iy; }
    else if prop == "iz" { assert StringToProperty(prop) == Iz; }
    else if prop == "vx" { assert StringToProperty(prop) == Vx; }
    else if prop == "vy" { assert StringToProperty(prop) == Vy; }
    else if prop == "vz" { assert StringToProperty(prop) == Vz; }
    else if prop == "fx" { assert StringToProperty(prop) == Fx; }
    else if prop == "fy" { assert StringToProperty(prop) == Fy; }
    else if prop == "fz" { assert StringToProperty(prop) == Fz; }
    else if prop == "q" { assert StringToProperty(prop) == Q; }
    else if prop == "mux" { assert StringToProperty(prop) == Mux; }
    else if prop == "muy" { assert StringToProperty(prop) == Muy; }
    else if prop == "muz" { assert StringToProperty(prop) == Muz; }
    else if prop == "mu" { assert StringToProperty(prop) == Mu; }
    else { assert StringToProperty(prop) == NullProperty; }
  }

  /** The slot writer succeeds exactly for the known names other than `mu`; when it
      succeeds it stores the token, converted by the slot's kind, in the named slot and
      leaves every other slot as it was. */
  lemma UpdateAtomDataWritesNamedSlot(ad: AtomData, prop: string, val: string, conv: Conversions)
    ensures UpdateAtomData(ad, prop, val, conv).Some?
        <==> StringToProperty(prop) != NullProperty && StringToProperty(prop) != Mu
    ensures UpdateAtomData(ad, prop, val, conv).Some? ==>
        var p := StringToProperty(prop);
        && p != NullProperty
        && Get(UpdateAtomData(ad, prop, val, conv).value, p) == Convert(conv, p, val)
        && forall q :: q != NullProperty && q != p ==>
             Get(UpdateAtomData(ad, prop, val, conv).value, q) == Get(ad, q)
  {
    AssignTargetIsResolution(prop);
  }
}
