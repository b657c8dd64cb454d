/** Trimming and splitting strings. */
module Strings {

  /** Removes characters of the cut set from both ends. */
  function Trim(s: string, cut: char -> bool): (t: string)
    ensures forall c | c in t :: c in s
    decreases |s|
  {
    if s == "" then s
    else if cut(s[0]) then Trim(s[1..], cut)
    else if cut(s[|s| - 1]) then Trim(s[..|s| - 1], cut)
    else s
  }

  predicate All(s: string, cut: char -> bool) {
    forall c | c in s :: cut(c)
  }

  predicate Tight(s: string, cut: char -> bool) {
    s == "" || (!cut(s[0]) && !cut(s[|s| - 1]))
  }

  /** What is left after trimming is what lies between the edges. */
  lemma {:induction false} TrimBetween(a: string, t: string, b: string, cut: char -> bool)
    requires All(a, cut) && All(b, cut) && Tight(t, cut)
    ensures Trim(a + t + b, cut) == t
    decreases |a| + |b|
  {
    var s := a + t + b;
    if a != "" {
      assert s[0] == a[0] && a[0] in a && s[1..] == a[1..] + t + b;
      TrimBetween(a[1..], t, b, cut);
    } else if b != "" {
      var n := |b| - 1;
      assert s[|s| - 1] == b[n] && b[n] in b && s[..|s| - 1] == a + t + b[..n];
      if t == "" {
        assert s == b && s[0] == b[0] && b[0] in b && s[1..] == a + t + b[1..];
        TrimBetween(a, t, b[1..], cut);
      } else {
        TrimBetween(a, t, b[..n], cut);
      }
    } else {
      assert s == t;
    }
  }

  lemma {:induction false} TrimSplits(s: string, cut: char -> bool) returns (a: string, b: string)
    ensures s == a + Trim(s, cut) + b && All(a, cut) && All(b, cut) && Tight(Trim(s, cut), cut)
    decreases |s|
  {
    a, b := "", "";
    if s == "" {
    } else if cut(s[0]) {
      a, b := TrimSplits(s[1..], cut);
      a := [s[0]] + a;
      assert s == [s[0]] + s[1..];
    } else if cut(s[|s| - 1]) {
      a, b := TrimSplits(s[..|s| - 1], cut);
      b := b + [s[|s| - 1]];
      assert s == s[..|s| - 1] + [s[|s| - 1]];
    }
  }

  lemma TightTrims(s: string, cut: char -> bool)
    ensures Trim(s, cut) == s <==> Tight(s, cut)
  {
    var a, b := TrimSplits(s, cut);
    if Tight(s, cut) {
      TrimBetween("", s, "", cut);
      assert "" + s + "" == s;
    }
  }

  /** Nothing is left exactly when every character is cut. */
  lemma TrimsAway(s: string, cut: char -> bool)
    ensures Trim(s, cut) == "" <==> All(s, cut)
  {
    var a, b := TrimSplits(s, cut);
    var t := Trim(s, cut);
    assert t == "" ==> s == a + b;
    assert t != "" ==> t[0] in t && t[0] in s;
  }
}
