/** The conversation identifier both chat participants compute:
    `[me, other].sort().join('_vs_')`. The listener and the sender use the same
    expression, so both sides of a pair meet in one message log.
 */
module Conversation {
  import opened JsString

  /** "_vs_" */
  const Separator: Str := [0x5F, 0x76, 0x73, 0x5F]

  /** `[a, b].sort()` with no comparator: the elements are ordered by the
      string `<`, and a stable sort keeps `[a, b]` when neither is smaller. */
  function SortPair(a: Str, b: Str): (r: seq<Str>)
    ensures |r| == 2 && multiset(r) == multiset{a, b}
    ensures !Less(r[1], r[0])
  {
    if Less(b, a) then LessAsymmetric(b, a); [b, a] else [a, b]
  }

  /** `SortPair(a, b).join(Separator)`: a two-element join puts the separator
      once, between the elements. */
  function ChatId(me: Str, other: Str): (id: Str)
    ensures |id| == |me| + |Separator| + |other|
    ensures !Less(other, me) ==> id == me + Separator + other
    ensures !Less(me, other) ==> id == other + Separator + me
  {
    LessTrichotomy(me, other);
    var pair := SortPair(me, other);
    pair[0] + Separator + pair[1]
  }

  /** The sorted pair does not depend on the order of the arguments. */
  lemma SortPairSymmetric(a: Str, b: Str)
    ensures SortPair(a, b) == SortPair(b, a)
  {
    LessTrichotomy(a, b);
    if Less(a, b) {
      LessAsymmetric(a, b);
    }
  }

  /** Both participants derive the same identifier. */
  lemma ChatIdSymmetric(a: Str, b: Str)
    ensures ChatId(a, b) == ChatId(b, a)
  {
    SortPairSymmetric(a, b);
  }

  /** The identifier is not injective: two different pairs of names can share
      one conversation when a name contains the separator. */
  lemma ChatIdCollides()
    ensures var a, b, c := [0x61], [0x62], [0x63];
            && {a, b + Separator + c} != {a + Separator + b, c}
            && ChatId(a, b + Separator + c) == ChatId(a + Separator + b, c)
  {
    var a: Str, b: Str, c: Str := [0x61], [0x62], [0x63];
    assert Less(a, b + Separator + c);
    assert Less(a + Separator + b, c);
    assert a + Separator + b + Separator + c == a + Separator + (b + Separator + c);
    assert a + Separator + b != a && a + Separator + b != b + Separator + c;
  }

  ghost predicate ContainsSeparator(s: Str)
  {
    exists k :: 0 <= k <= |s| && Separator <= s[k..]
  }

  /** Keeping the separator out of names is not enough either, because "_vs_"
      overlaps itself: "a" with "vs_z" and "a_vs" with "z" both give
      "a_vs_vs_z". */
  lemma ChatIdCollidesWithoutSeparatorInNames()
    ensures var a, b := [0x61], [0x76, 0x73, 0x5F, 0x7A];
            var c, d := [0x61, 0x5F, 0x76, 0x73], [0x7A];
            && !ContainsSeparator(a) && !ContainsSeparator(b)
            && !ContainsSeparator(c) && !ContainsSeparator(d)
            && {a, b} != {c, d}
            && ChatId(a, b) == ChatId(c, d)
  {
    var a: Str, b: Str := [0x61], [0x76, 0x73, 0x5F, 0x7A];
    var c: Str, d: Str := [0x61, 0x5F, 0x76, 0x73], [0x7A];
    assert Less(a, b) && Less(c, d);
    assert ChatId(a, b) == a + Separator + b;
    assert ChatId(c, d) == c + Separator + d;
    ShortNoSeparator(a);
    ShortNoSeparator(b);
    ShortNoSeparator(c);
    ShortNoSeparator(d);
    assert a != c && a != d;
  }

  /** A name no longer than the separator contains it only by being it. */
  lemma ShortNoSeparator(s: Str)
    requires |s| <= |Separator| && s != Separator
    ensures !ContainsSeparator(s)
  {
    forall k | 0 <= k <= |s|
      ensures !(Separator <= s[k..])
    {
      if k == 0 {
        assert s[k..] == s;
      }
    }
  }
}
