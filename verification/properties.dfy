/** The closed set of per-atom properties a dump file can carry, and the names by
    which a dump header or a field specification refers to them. */
module Properties {

  /** The property tags in their declared order. The first thirty are data tags;
      `NullProperty` is the trailing sentinel that stands for "no such property". */
  datatype Property =
    | Id | Type | Mol | Mass
    | X | Y | Z | Xs | Ys | Zs | Xu | Yu | Zu | Xsu | Ysu | Zsu
    | Ix | Iy | Iz
    | Vx | Vy | Vz | Fx | Fy | Fz
    | Q | Mux | Muy | Muz | Mu
    | NullProperty

  /** The name a dump file uses for a data tag. */
  function Name(p: Property): string
    requires p != NullProperty
  {
    match p
    case Id => "id" case Type => "type" case Mol => "mol" case Mass => "mass"
    case X => "x" case Y => "y" case Z => "z"
    case Xs => "xs" case Ys => "ys" case Zs => "zs"
    case Xu => "xu" case Yu => "yu" case Zu => "zu"
    case Xsu => "xsu" case Ysu => "ysu" case Zsu => "zsu"
    case Ix => "ix" case Iy => "iy" case Iz => "iz"
    case Vx => "vx" case Vy => "vy" case Vz => "vz"
    case Fx => "fx" case Fy => "fy" case Fz => "fz"
    case Q => "q" case Mux => "mux" case Muy => "muy" case Muz => "muz" case Mu => "mu"
  }

  /** Integer-valued slots; every other data slot holds a real. */
  predicate IsIntegerSlot(p: Property) {
    p == Id || p == Type || p == Mol || p == Ix || p == Iy || p == Iz
  }

  /** Resolve a name by comparing it with each known name in declaration order; a
      name matching none resolves to the sentinel. */
  function StringToProperty(s: string): Property {
    if s == "id" then Id
    else if s == "type" then Type
    else if s == "mol" then Mol
    else if s == "mass" then Mass
    else if s == "x" then X
    else if s == "y" then Y
    else if s == "z" then Z
    else if s == "xs" then Xs
    else if s == "ys" then Ys
    else if s == "zs" then Zs
    else if s == "xu" then Xu
    else if s == "yu" then Yu
    else if s == "zu" then Zu
    else if s == "xsu" then Xsu
    else if s == "ysu" then Ysu
    else if s == "zsu" then Zsu
    else if s == "ix" then Ix
    else if s == "iy" then Iy
    else if s == "iz" then Iz
    else if s == "vx" then Vx
    else if s == "vy" then Vy
    else if s == "vz" then Vz
    else if s == "fx" then Fx
    else if s == "fy" then Fy
    else if s == "fz" then Fz
    else if s == "q" then Q
    else if s == "mux" then Mux
    else if s == "muy" then Muy
    else if s == "muz" then Muz
    else if s == "mu" then Mu
    else NullProperty
  }

  /** A name that resolves to a data tag is that tag's name. */
  lemma ResolvedNameMatches(s: string)
    ensures StringToProperty(s) != NullProperty ==> Name(StringToProperty(s)) == s
  {
    if StringToProperty(s) != NullProperty {
      if |s| <= 2 { ResolvedShortNameMatches(s); } else { ResolvedLongNameMatches(s); }
    }
  }

  /** `ResolvedNameMatches` for names of at most two letters. */
  lemma ResolvedShortNameMatches(s: string)
    requires |s| <= 2 && StringToProperty(s) != NullProperty
    ensures Name(StringToProperty(s)) == s
  {
    if s == "id" { assert StringToProperty(s) == Id; }
    else if s == "x" { assert StringToProperty(s) == X; }
    else if s == "y" { assert StringToProperty(s) == Y; }
    else if s == "z" { assert StringToProperty(s) == Z; }
    else if s == "xs" { assert StringToProperty(s) == Xs; }
    else if s == "ys" { assert StringToProperty(s) == Ys; }
    else if s == "zs" { assert StringToProperty(s) == Zs; }
    else if s == "xu" { assert StringToProperty(s) == Xu; }
    else if s == "yu" { assert StringToProperty(s) == Yu; }
    else if s == "zu" { assert StringToProperty(s) == Zu; }
    else if s == "ix" { assert StringToProperty(s) == Ix; }
    else if s == "iy" { assert StringToProperty(s) == Iy; }
    else if s == "iz" { assert StringToProperty(s) == Iz; }
    else if s == "vx" { assert StringToProperty(s) == Vx; }
    else if s == "vy" { assert StringToProperty(s) == Vy; }
    else if s == "vz" { assert StringToProperty(s) == Vz; }
    else if s == "fx" { assert StringToProperty(s) == Fx; }
    else if s == "fy" { assert StringToProperty(s) == Fy; }
    else if s == "fz" { assert StringToProperty(s) == Fz; }
    else if s == "q" { assert StringToProperty(s) == Q; }
    else if s == "mu" { assert StringToProperty(s) == Mu; }
  }

  /** `ResolvedNameMatches` for names of three or more letters. */
  lemma ResolvedLongNameMatches(s: string)
    requires |s| > 2 && StringToProperty(s) != NullProperty
    ensures Name(StringToProperty(s)) == s
  {
    if s == "type" { assert StringToProperty(s) == Type; }
    else if s == "mol" { assert StringToProperty(s) == Mol; }
    else if s == "mass" { assert StringToProperty(s) == Mass; }
    else if s == "xsu" { assert StringToProperty(s) == Xsu; }
    else if s == "ysu" { assert StringToProperty(s) == Ysu; }
    else if s == "zsu" { assert StringToProperty(s) == Zsu; }
    else if s == "mux" { assert StringToProperty(s) == Mux; }
    else if s == "muy" { assert StringToProperty(s) == Muy; }
    else if s == "muz" { assert StringToProperty(s) == Muz; }
  }

  /** Resolving a tag's own name gives the tag back. */
  lemma NameResolves(p: Property)
    requires p != NullProperty
    ensures StringToProperty(Name(p)) == p
  {
    var n := |Name(p)|;
    if n == 1 { OneLetterNameResolves(p); }
    else if n == 2 { TwoLetterNameResolves(p); }
    else if n == 3 { ThreeLetterNameResolves(p); }
    else { FourLetterNameResolves(p); }
  }

  /** `NameResolves` for the tags whose names have one letter. */
  lemma OneLetterNameResolves(p: Property)
    requires p != NullProperty && |Name(p)| == 1
    ensures StringToProperty(Name(p)) == p
  {
    var s := Name(p);
    if p == X { assert s == "x"; }
    else if p == Y { assert s == "y"; }
    else if p == Z { assert s == "z"; }
    else if p == Q { assert s == "q"; }
  }

  /** `NameResolves` for the tags whose names have two letters. */
  lemma TwoLetterNameResolves(p: Property)
    requires p != NullProperty && |Name(p)| == 2
    ensures StringToProperty(Name(p)) == p
  {
    var s := Name(p);
    if p == Id { assert s == "id"; }
    else if p == Xs { assert s == "xs"; }
    else if p == Ys { assert s == "ys"; }
    else if p == Zs { assert s == "zs"; }
    else if p == Xu { assert s == "xu"; }
    else if p == Yu { assert s == "yu"; }
    else if p == Zu { assert s == "zu"; }
    else if p == Ix { assert s == "ix"; }
    else if p == Iy { assert s == "iy"; }
    else if p == Iz { assert s == "iz"; }
    else if p == Vx { assert s == "vx"; }
    else if p == Vy { assert s == "vy"; }
    else if p == Vz { assert s == "vz"; }
    else if p == Fx { assert s == "fx"; }
    else if p == Fy { assert s == "fy"; }
    else if p == Fz { assert s == "fz"; }
    else if p == Mu { assert s == "mu"; }
  }

  /** `NameResolves` for the tags whose names have three letters. */
  lemma ThreeLetterNameResolves(p: Property)
    requires p != NullProperty && |Name(p)| == 3
    ensures StringToProperty(Name(p)) == p
  {
    var s := Name(p);
    if p == Mol { assert s == "mol"; }
    else if p == Xsu { assert s == "xsu"; }
    else if p == Ysu { assert s == "ysu"; }
    else if p == Zsu { assert s == "zsu"; }
    else if p == Mux { assert s == "mux"; }
    else if p == Muy { assert s == "muy"; }
    else if p == Muz { assert s == "muz"; }
  }

  /** `NameResolves` for the tags whose names have four letters. */
  lemma FourLetterNameResolves(p: Property)
    requires p != NullProperty && |Name(p)| == 4
    ensures StringToProperty(Name(p)) == p
  {
    var s := Name(p);
    if p == Type { assert s == "type"; }
    else if p == Mass { assert s == "mass"; }
  }

  /** Exactly the strings that are no tag's name resolve to the sentinel. */
  lemma UnknownNamesResolveToNull(s: string)
    ensures StringToProperty(s) == NullProperty <==> forall q :: q != NullProperty ==> Name(q) != s
  {
    ResolvedNameMatches(s);
    if StringToProperty(s) == NullProperty {
      forall q | q != NullProperty
        ensures Name(q) != s
      {
        NameResolves(q);
      }
    }
  }

  /** Distinct data tags are known by distinct names. */
  lemma NamesDistinct(p: Property, q: Property)
    requires p != NullProperty && q != NullProperty && p != q
    ensures Name(p) != Name(q)
  {
    NameResolves(p);
    NameResolves(q);
  }
}
