/** Tokenising a line on the space character, as the reader's `explode` helper does.
    Only ' ' separates tokens: a tab, or any other character, stays inside a token. */
module Tokenize {

  /** A token is a non-empty string holding no space. */
  predicate IsToken(t: string) {
    t != [] && ' ' !in t
  }

  /** Index of the first space in `s`. */
  function FirstSpace(s: string): (k: nat)
    requires ' ' in s
    ensures k < |s| && s[k] == ' '
    ensures ' ' !in s[..k]
  {
    if s[0] == ' ' then 0
    else
      var k' := FirstSpace(s[1..]);
      assert s[..k' + 1] == [s[0]] + s[1..][..k'];
      k' + 1
  }

  /** The source's loop: cut at the first space, keep the piece before it when it is
      not empty, and carry on with what follows; a non-empty remainder is the last token. */
  function Explode(s: string): (tokens: seq<string>)
    ensures forall i :: 0 <= i < |tokens| ==> IsToken(tokens[i])
    ensures ' ' !in s ==> tokens == (if s == [] then [] else [s])
    decreases |s|
  {
    if ' ' in s then
      var k := FirstSpace(s);
      var rest := Explode(s[k + 1..]);
      if k == 0 then rest else [s[..k]] + rest
    else if s == [] then []
    else [s]
  }

  /** The tokens glued back together with one space between neighbours. */
  function Join(ts: seq<string>): string {
    if ts == [] then []
    else if |ts| == 1 then ts[0]
    else ts[0] + " " + Join(ts[1..])
  }

  /** The characters of `s` other than spaces, in order. */
  function RemoveSpaces(s: string): string {
    if s == [] then []
    else (if s[0] == ' ' then [] else [s[0]]) + RemoveSpaces(s[1..])
  }

  /** All tokens laid end to end. */
  function Concat(ts: seq<string>): string {
    if ts == [] then [] else ts[0] + Concat(ts[1..])
  }

  /** No leading or trailing space and no two spaces in a row. */
  predicate Squeezed(t: string) {
    && (t != [] ==> t[0] != ' ' && t[|t| - 1] != ' ')
    && forall i :: 0 <= i < |t| - 1 ==> !(t[i] == ' ' && t[i + 1] == ' ')
  }

  /** The first space is the one with no space before it. */
  lemma FirstSpaceIs(s: string, j: nat)
    requires j < |s| && s[j] == ' ' && ' ' !in s[..j]
    ensures FirstSpace(s) == j
  {
    var k := FirstSpace(s);
    assert forall i :: 0 <= i < j ==> s[..j][i] == s[i];
    assert forall i :: 0 <= i < k ==> s[..k][i] == s[i];
  }

  /** A single space splits a line into two independently tokenised halves. Together
      with the second ensures of `Explode` this fixes the result on every input. */
  lemma {:induction false} ExplodeSplitsAtSpace(a: string, b: string)
    ensures Explode(a + " " + b) == Explode(a) + Explode(b)
    decreases |a|
  {
    var s := a + " " + b;
    if ' ' in a {
      var j := FirstSpace(a);
      assert s[..j] == a[..j];
      FirstSpaceIs(s, j);
      assert s[j + 1..] == a[j + 1..] + " " + b;
      ExplodeSplitsAtSpace(a[j + 1..], b);
    } else {
      assert s[..|a|] == a;
      FirstSpaceIs(s, |a|);
      assert s[|a| + 1..] == b;
    }
  }

  /** Tokenising the joined tokens gives the tokens back. */
  lemma {:induction false} ExplodeJoin(ts: seq<string>)
    requires forall i :: 0 <= i < |ts| ==> IsToken(ts[i])
    ensures Explode(Join(ts)) == ts
  {
    if |ts| > 1 {
      ExplodeSplitsAtSpace(ts[0], Join(ts[1..]));
      ExplodeJoin(ts[1..]);
    }
  }

  lemma {:induction false} RemoveSpacesAppend(a: string, b: string)
    ensures RemoveSpaces(a + b) == RemoveSpaces(a) + RemoveSpaces(b)
  {
    if a == [] {
      assert a + b == b;
    } else {
      var head := if a[0] == ' ' then [] else [a[0]];
      assert (a + b)[0] == a[0];
      assert (a + b)[1..] == a[1..] + b;
      RemoveSpacesAppend(a[1..], b);
      calc {
        RemoveSpaces(a + b);
        head + RemoveSpaces(a[1..] + b);
        head + (RemoveSpaces(a[1..]) + RemoveSpaces(b));
        (head + RemoveSpaces(a[1..])) + RemoveSpaces(b);
      }
    }
  }

  lemma {:induction false} RemoveSpacesOfWord(w: string)
    requires ' ' !in w
    ensures RemoveSpaces(w) == w
  {
    if w != [] {
      assert w[0] != ' ';
      RemoveSpacesOfWord(w[1..]);
    }
  }

  lemma {:induction false} ConcatAppend(xs: seq<string>, ys: seq<string>)
    ensures Concat(xs + ys) == Concat(xs) + Concat(ys)
  {
    if xs == [] {
      assert xs + ys == ys;
    } else {
      assert (xs + ys)[0] == xs[0];
      assert (xs + ys)[1..] == xs[1..] + ys;
      ConcatAppend(xs[1..], ys);
    }
  }

  lemma ConcatExplodeOfWord(w: string)
    requires ' ' !in w
    ensures Concat(Explode(w)) == w
  {
    if w != [] {
      assert Explode(w) == [w];
      assert Concat([w]) == w + Concat([]);
    }
  }

  lemma {:induction false} RemoveSpacesAtSpace(w: string, rest: string)
    requires ' ' !in w
    ensures RemoveSpaces(w + " " + rest) == w + RemoveSpaces(rest)
  {
    RemoveSpacesAppend(w + " ", rest);
    RemoveSpacesAppend(w, " ");
    RemoveSpacesOfWord(w);
    assert RemoveSpaces(" ") == [] + RemoveSpaces([]);
  }

  /** Tokenising loses nothing but spaces and keeps the order of the other characters. */
  lemma {:induction false} ExplodeKeepsContent(s: string)
    ensures Concat(Explode(s)) == RemoveSpaces(s)
    decreases |s|
  {
    if ' ' in s {
      var k := FirstSpace(s);
      var w, rest := s[..k], s[k + 1..];
      assert s == w + " " + rest;
      ExplodeSplitsAtSpace(w, rest);
      ConcatAppend(Explode(w), Explode(rest));
      ConcatExplodeOfWord(w);
      ExplodeKeepsContent(rest);
      RemoveSpacesAtSpace(w, rest);
    } else {
      RemoveSpacesOfWord(s);
      ConcatExplodeOfWord(s);
    }
  }

  lemma {:induction false} JoinShape(ts: seq<string>)
    requires forall i :: 0 <= i < |ts| ==> IsToken(ts[i])
    ensures ts != [] ==> Join(ts) != [] && Join(ts)[0] != ' ' && Join(ts)[|Join(ts)| - 1] != ' '
    ensures Squeezed(Join(ts))
  {
    if |ts| > 1 {
      JoinShape(ts[1..]);
      var t, r := ts[0], Join(ts[1..]);
      var j := t + " " + r;
      assert ' ' !in t;
      forall i | 0 <= i < |j| - 1
        ensures !(j[i] == ' ' && j[i + 1] == ' ')
      {
        if i < |t| {
          assert j[i] == t[i];
        } else if i == |t| {
          assert j[i + 1] == r[0];
        } else {
          assert j[i] == r[i - |t| - 1] && j[i + 1] == r[i - |t|];
        }
      }
    } else if |ts| == 1 {
      assert ' ' !in ts[0];
    }
  }

  /** Joining the tokens with single spaces gives the line with every run of spaces
      collapsed and both ends trimmed: the result is squeezed, holds the same
      non-space characters, and tokenises to the same tokens. */
  lemma JoinExplodeNormalises(s: string)
    ensures Squeezed(Join(Explode(s)))
    ensures RemoveSpaces(Join(Explode(s))) == RemoveSpaces(s)
    ensures Explode(Join(Explode(s))) == Explode(s)
  {
    var ts := Explode(s);
    JoinShape(ts);
    ExplodeJoin(ts);
    JoinKeepsContent(ts);
    ExplodeKeepsContent(s);
  }

  lemma {:induction false} JoinKeepsContent(ts: seq<string>)
    requires forall i :: 0 <= i < |ts| ==> IsToken(ts[i])
    ensures RemoveSpaces(Join(ts)) == Concat(ts)
  {
    if |ts| == 1 {
      RemoveSpacesOfWord(ts[0]);
      assert ts[1..] == [];
    } else if |ts| > 1 {
      JoinKeepsContent(ts[1..]);
      RemoveSpacesAppend(ts[0] + " ", Join(ts[1..]));
      RemoveSpacesAppend(ts[0], " ");
      RemoveSpacesOfWord(ts[0]);
    }
  }
}
