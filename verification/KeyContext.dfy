/** The context string that binds a link key to its two node ids (src/daemon.rs:841-847). */
module KeyContext {
  import Utf8

  /** The order of Rust's str, by characters; BelowIsByteOrder shows that it is the order of the
      bytes. */
  predicate Below(a: string, b: string) {
    if a == [] then true
    else if b == [] then false
    else if a[0] != b[0] then a[0] < b[0]
    else Below(a[1..], b[1..])
  }

  const LABEL := "stealthnet:"
  const SEPARATOR := "<->"

  function SymmetricContext(a: string, b: string): string {
    if Below(a, b) then LABEL + a + SEPARATOR + b else LABEL + b + SEPARATOR + a
  }

  function Lesser(a: string, b: string): string {
    if Below(a, b) then a else b
  }

  function Greater(a: string, b: string): string {
    if Below(a, b) then b else a
  }

  /** The code points of a string. */
  function Scalars(s: string): seq<Utf8.Scalar> {
    seq(|s|, i requires 0 <= i < |s| => s[i] as int)
  }

  /** Rust compares the UTF-8 bytes of two strings. */
  lemma {:induction false} BelowIsByteOrder(a: string, b: string)
    ensures Below(a, b) <==> Utf8.BytesBelow(Utf8.EncodeText(Scalars(a)), Utf8.EncodeText(Scalars(b)))
  {
    Utf8.OrderKept(Scalars(a), Scalars(b));
    BelowIsTextOrder(a, b);
  }

  lemma {:induction false} BelowIsTextOrder(a: string, b: string)
    ensures Below(a, b) <==> Utf8.TextBelow(Scalars(a), Scalars(b))
  {
    if a != [] && b != [] {
      BelowIsTextOrder(a[1..], b[1..]);
      assert Scalars(a[1..]) == Scalars(a)[1..] && Scalars(b[1..]) == Scalars(b)[1..];
    }
  }

  lemma {:induction false} BelowTotal(a: string, b: string)
    ensures Below(a, b) || Below(b, a)
    ensures Below(a, b) && Below(b, a) ==> a == b
  {
    if a != [] && b != [] && a[0] == b[0] {
      BelowTotal(a[1..], b[1..]);
      assert a == [a[0]] + a[1..] && b == [b[0]] + b[1..];
    }
  }

  /** The text of a context, from either end: the label, and the two ids in order around the
      separator. */
  lemma {:induction false} ContextText(a: string, b: string)
    requires Below(a, b)
    ensures SymmetricContext(a, b) == SymmetricContext(b, a) == "stealthnet:" + a + "<->" + b
  {
    BelowTotal(a, b);
  }

  /** Both ends of a link derive the same context. */
  lemma {:induction false} ContextCommutes(a: string, b: string)
    ensures SymmetricContext(a, b) == SymmetricContext(b, a)
  {
    BelowTotal(a, b);
  }

  ghost predicate SeparatorAt(s: string, i: int) {
    0 <= i <= |s| - |SEPARATOR| && s[i..i + |SEPARATOR|] == SEPARATOR
  }

  ghost predicate HasSeparator(s: string) {
    exists i :: SeparatorAt(s, i)
  }

  lemma {:induction false} SeparatorChars(s: string, i: int)
    requires 0 <= i <= |s| - 3
    ensures SeparatorAt(s, i) <==> s[i] == '<' && s[i+1] == '-' && s[i+2] == '>'
  {
    assert |SEPARATOR| == 3;
    assert s[i..i+3] == [s[i], s[i+1], s[i+2]];
    assert SEPARATOR == ['<', '-', '>'];
  }

  /** The separator does not overlap itself: in lo + "<->" + hi its first occurrence is at
      |lo| whenever lo does not contain it. */
  lemma {:induction false} FirstSeparator(lo: string, hi: string, i: int)
    requires !HasSeparator(lo)
    ensures SeparatorAt(lo + SEPARATOR + hi, |lo|)
    ensures SeparatorAt(lo + SEPARATOR + hi, i) ==> i >= |lo|
  {
    var s := lo + SEPARATOR + hi;
    SeparatorChars(s, |lo|);
    if SeparatorAt(s, i) && i < |lo| {
      SeparatorChars(s, i);
      if i + 3 <= |lo| {
        SeparatorChars(lo, i);
      }
    }
  }

  lemma {:induction false} SplitUnique(lo: string, hi: string, lo': string, hi': string)
    requires !HasSeparator(lo) && !HasSeparator(lo')
    requires lo + SEPARATOR + hi == lo' + SEPARATOR + hi'
    ensures lo == lo' && hi == hi'
  {
    var s := lo + SEPARATOR + hi;
    FirstSeparator(lo, hi, |lo'|);
    FirstSeparator(lo', hi', |lo|);
    assert lo == s[..|lo|] && lo' == s[..|lo'|];
    assert hi == s[|lo| + 3..] && hi' == s[|lo'| + 3..];
  }

  ghost predicate SamePair(a: string, b: string, c: string, d: string) {
    (a == c && b == d) || (a == d && b == c)
  }

  lemma {:induction false} ContextForm(a: string, b: string)
    ensures SymmetricContext(a, b) == LABEL + (Lesser(a, b) + SEPARATOR + Greater(a, b))
  {
    assert LABEL + (Lesser(a, b) + SEPARATOR + Greater(a, b)) == LABEL + Lesser(a, b) + SEPARATOR + Greater(a, b);
  }

  /** Distinct links get distinct contexts as long as the lesser id of each link does not
      contain the separator; no condition on the greater id is needed. */
  lemma {:induction false} ContextInjective(a: string, b: string, c: string, d: string)
    requires !HasSeparator(Lesser(a, b)) && !HasSeparator(Lesser(c, d))
    ensures SymmetricContext(a, b) == SymmetricContext(c, d) <==> SamePair(a, b, c, d)
  {
    ContextCommutes(a, b);
    if SymmetricContext(a, b) == SymmetricContext(c, d) {
      ContextForm(a, b);
      ContextForm(c, d);
      var s, t := Lesser(a, b) + SEPARATOR + Greater(a, b), Lesser(c, d) + SEPARATOR + Greater(c, d);
      assert s == (LABEL + s)[|LABEL|..] && t == (LABEL + t)[|LABEL|..];
      SplitUnique(Lesser(a, b), Greater(a, b), Lesser(c, d), Greater(c, d));
    }
  }

  /** What follows the label in a context. */
  function Joined(a: string, b: string): string {
    Lesser(a, b) + SEPARATOR + Greater(a, b)
  }

  /** The two ids, joined, can be cut at the separator in one place only, as far as the cut
      leaves the lesser part in front. */
  ghost predicate CutsOnce(a: string, b: string) {
    forall i :: SeparatorAt(Joined(a, b), i) && i != |Lesser(a, b)| ==> !Below(Joined(a, b)[..i], Joined(a, b)[i+3..])
  }

  lemma {:induction false} SameContext(a: string, b: string, c: string, d: string)
    ensures SymmetricContext(a, b) == SymmetricContext(c, d) <==> Joined(a, b) == Joined(c, d)
  {
    ContextForm(a, b);
    ContextForm(c, d);
    assert Joined(a, b) == (LABEL + Joined(a, b))[|LABEL|..] && Joined(c, d) == (LABEL + Joined(c, d))[|LABEL|..];
  }

  lemma {:induction false} LesserFirst(a: string, b: string)
    ensures Below(Lesser(a, b), Greater(a, b)) && SamePair(a, b, Lesser(a, b), Greater(a, b))
    ensures SeparatorAt(Joined(a, b), |Lesser(a, b)|)
    ensures Joined(a, b)[..|Lesser(a, b)|] == Lesser(a, b) && Joined(a, b)[|Lesser(a, b)| + 3..] == Greater(a, b)
  {
    BelowTotal(a, b);
    SeparatorChars(Joined(a, b), |Lesser(a, b)|);
  }

  /** A second cut gives a different link with the same context. */
  lemma {:induction false} OtherCut(a: string, b: string, i: int)
    requires SeparatorAt(Joined(a, b), i) && i != |Lesser(a, b)| && Below(Joined(a, b)[..i], Joined(a, b)[i+3..])
    ensures var c, d := Joined(a, b)[..i], Joined(a, b)[i+3..];
            SymmetricContext(a, b) == SymmetricContext(c, d) && !SamePair(a, b, c, d)
  {
    var s := Joined(a, b);
    var c, d := s[..i], s[i+3..];
    assert s == c + SEPARATOR + d == Joined(c, d);
    SameContext(a, b, c, d);
    LesserFirst(a, b);
    BelowTotal(a, b);
  }

  lemma {:induction false} OnlyCut(a: string, b: string, c: string, d: string)
    requires CutsOnce(a, b) && SymmetricContext(a, b) == SymmetricContext(c, d)
    ensures SamePair(a, b, c, d)
  {
    SameContext(a, b, c, d);
    LesserFirst(a, b);
    LesserFirst(c, d);
  }

  /** Exactly when a link has its context to itself: no other pair of ids shares the context of
      a and b if and only if the joined ids can be cut once only. */
  lemma {:induction false} ContextUniqueIff(a: string, b: string)
    ensures (forall c, d :: SymmetricContext(a, b) == SymmetricContext(c, d) ==> SamePair(a, b, c, d)) <==> CutsOnce(a, b)
  {
    if CutsOnce(a, b) {
      forall c, d | SymmetricContext(a, b) == SymmetricContext(c, d) ensures SamePair(a, b, c, d) {
        OnlyCut(a, b, c, d);
      }
    } else {
      var i :| SeparatorAt(Joined(a, b), i) && i != |Lesser(a, b)| && Below(Joined(a, b)[..i], Joined(a, b)[i+3..]);
      OtherCut(a, b, i);
    }
  }

  /** Without that condition two different links can share a context. */
  lemma {:induction false} ContextCollision()
    ensures !SamePair("a", "b<->c", "a<->b", "c")
    ensures SymmetricContext("a", "b<->c") == SymmetricContext("a<->b", "c")
  {
    assert Below("a", "b<->c");
    assert Below("a<->b", "c");
    assert "a" + SEPARATOR + "b<->c" == "a<->b" + SEPARATOR + "c";
    assert LABEL + "a" + SEPARATOR + "b<->c" == LABEL + ("a" + SEPARATOR + "b<->c");
    assert LABEL + "a<->b" + SEPARATOR + "c" == LABEL + ("a<->b" + SEPARATOR + "c");
    assert "a" != "a<->b" by { assert |"a"| != |"a<->b"|; }
  }
}
