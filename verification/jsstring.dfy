/** JavaScript strings as the browser hands them to the messenger: sequences of
    UTF-16 code units, compared by the language's relational `<` (which is what
    `Array.prototype.sort` uses when no comparator is given) and cut down by
    `String.prototype.trim`. Truthiness of a string is non-emptiness.
 */
module JsString {

  /** One UTF-16 code unit. */
  type CodeUnit = c: int | 0 <= c < 0x1_0000

  type Str = seq<CodeUnit>

  /** `if (s)` on a string: only the empty string is falsy. */
  predicate Truthy(s: Str) {
    |s| > 0
  }

  /* ---------------------------------------------------------------------- */
  /* Ordering                                                                */
  /* ---------------------------------------------------------------------- */

  /** `a < b` on two strings (ECMAScript IsLessThan): a proper prefix is smaller,
      otherwise the first differing code unit decides. */
  function Less(a: Str, b: Str): (r: bool)
    ensures r ==> |b| > 0
    ensures |a| < |b| && a == b[..|a|] ==> r
  {
    |b| > 0 && (|a| == 0 || a[0] < b[0] || (a[0] == b[0] && Less(a[1..], b[1..])))
  }

  lemma {:induction false} LessIrreflexive(a: Str)
    ensures !Less(a, a)
  {
    if |a| > 0 {
      LessIrreflexive(a[1..]);
    }
  }

  lemma {:induction false} LessTransitive(a: Str, b: Str, c: Str)
    requires Less(a, b) && Less(b, c)
    ensures Less(a, c)
  {
    if |a| > 0 && a[0] == b[0] && b[0] == c[0] {
      LessTransitive(a[1..], b[1..], c[1..]);
    }
  }

  lemma LessAsymmetric(a: Str, b: Str)
    requires Less(a, b)
    ensures !Less(b, a)
  {
    if Less(b, a) {
      LessTransitive(a, b, a);
      LessIrreflexive(a);
    }
  }

  /** Any two strings are comparable: the order is total. */
  lemma {:induction false} LessTrichotomy(a: Str, b: Str)
    ensures Less(a, b) || a == b || Less(b, a)
  {
    if |a| > 0 && |b| > 0 && a[0] == b[0] {
      LessTrichotomy(a[1..], b[1..]);
      if a[1..] == b[1..] {
        assert a == [a[0]] + a[1..] && b == [b[0]] + b[1..];
      }
    }
  }

  /* ---------------------------------------------------------------------- */
  /* Trimming                                                                */
  /* ---------------------------------------------------------------------- */

  /** The code units `trim` removes: ECMAScript WhiteSpace (TAB, VT, FF, SP,
      NBSP, ZWNBSP and the other Space_Separator characters) and
      LineTerminator (LF, CR, LS, PS). All of them lie in the Basic
      Multilingual Plane, so a code-unit test is exact. */
  predicate IsWhiteSpace(c: CodeUnit)
  {
    || c == 0x09 || c == 0x0B || c == 0x0C || c == 0x20 || c == 0xA0 || c == 0xFEFF
    || c == 0x1680 || (0x2000 <= c <= 0x200A) || c == 0x202F || c == 0x205F || c == 0x3000
    || c == 0x0A || c == 0x0D || c == 0x2028 || c == 0x2029
  }

  ghost predicate AllWhiteSpace(s: Str)
  {
    forall i :: 0 <= i < |s| ==> IsWhiteSpace(s[i])
  }

  /** Neither end is white space. */
  predicate Trimmed(s: Str)
  {
    |s| == 0 || (!IsWhiteSpace(s[0]) && !IsWhiteSpace(s[|s| - 1]))
  }

  /** `r` is what is left of `s` once white space is cut from both ends. */
  ghost predicate StripsTo(s: Str, r: Str)
  {
    exists i, j :: 0 <= i <= j <= |s| && r == s[i..j] && AllWhiteSpace(s[..i]) && AllWhiteSpace(s[j..])
  }

  /** `s` without its leading white space. */
  function TrimStart(s: Str): Str
  {
    if |s| > 0 && IsWhiteSpace(s[0]) then TrimStart(s[1..]) else s
  }

  /** `s` without its trailing white space. */
  function TrimEnd(s: Str): Str
  {
    if |s| > 0 && IsWhiteSpace(s[|s| - 1]) then TrimEnd(s[..|s| - 1]) else s
  }

  /** TrimStart keeps a suffix, drops only white space, and stops at a code
      unit that is not white space. */
  lemma {:induction false} TrimStartSpec(s: Str)
    ensures |TrimStart(s)| <= |s| && TrimStart(s) == s[|s| - |TrimStart(s)|..]
    ensures AllWhiteSpace(s[..|s| - |TrimStart(s)|])
    ensures |TrimStart(s)| == 0 || !IsWhiteSpace(TrimStart(s)[0])
  {
    if |s| > 0 && IsWhiteSpace(s[0]) {
      var t := s[1..];
      TrimStartSpec(t);
      var n := |s| - |TrimStart(t)|;
      forall k | 0 <= k < n
        ensures IsWhiteSpace(s[..n][k])
      {
        if k > 0 {
          assert s[..n][k] == t[..n - 1][k - 1];
        }
      }
    }
  }

  /** TrimEnd keeps a prefix, drops only white space, and stops at a code
      unit that is not white space. */
  lemma {:induction false} TrimEndSpec(s: Str)
    ensures |TrimEnd(s)| <= |s| && TrimEnd(s) == s[..|TrimEnd(s)|]
    ensures AllWhiteSpace(s[|TrimEnd(s)|..])
    ensures |TrimEnd(s)| == 0 || !IsWhiteSpace(TrimEnd(s)[|TrimEnd(s)| - 1])
  {
    if |s| > 0 && IsWhiteSpace(s[|s| - 1]) {
      var t := s[..|s| - 1];
      TrimEndSpec(t);
      var n := |TrimEnd(t)|;
      forall k | 0 <= k < |s| - n
        ensures IsWhiteSpace(s[n..][k])
      {
        if k < |s| - 1 - n {
          assert s[n..][k] == t[n..][k];
        }
      }
    }
  }

  /** `s.trim()`. */
  function Trim(s: Str): (r: Str)
    ensures |r| <= |s| && Trimmed(r)
  {
    TrimStartSpec(s);
    TrimEndSpec(TrimStart(s));
    TrimEnd(TrimStart(s))
  }

  /** What `trim` leaves is `s` with white space cut from both ends. */
  lemma TrimStrips(s: Str)
    ensures StripsTo(s, Trim(s))
  {
    var t := TrimStart(s);
    var r := TrimEnd(t);
    TrimStartSpec(s);
    TrimEndSpec(t);
    var i := |s| - |t|;
    assert r == s[i..i + |r|];
    assert s[i + |r|..] == t[|r|..];
  }

  /** A string with white space at neither end is its own trim. */
  lemma TrimOfTrimmed(s: Str)
    requires Trimmed(s)
    ensures Trim(s) == s
  {
  }

  lemma TrimIdempotent(s: Str)
    ensures Trim(Trim(s)) == Trim(s)
  {
    TrimOfTrimmed(Trim(s));
  }

  /** `s.trim()` is falsy exactly when `s` is all white space. */
  lemma TrimEmptyIff(s: Str)
    ensures !Truthy(Trim(s)) <==> AllWhiteSpace(s)
  {
    var t := TrimStart(s);
    TrimStartSpec(s);
    TrimEndSpec(t);
    if AllWhiteSpace(s) {
      assert |t| == 0;
    }
    if Trim(s) == [] {
      assert |t| == 0;
      assert s[..|s|] == s;
    }
  }

  lemma {:induction false} TrimStartStops(s: Str, i: nat)
    requires i < |s| && AllWhiteSpace(s[..i]) && !IsWhiteSpace(s[i])
    ensures TrimStart(s) == s[i..]
  {
    if i > 0 {
      assert s[1..][..i - 1] == s[1..i];
      TrimStartStops(s[1..], i - 1);
    }
  }

  lemma {:induction false} TrimEndStops(s: Str, j: nat)
    requires 0 < j <= |s| && AllWhiteSpace(s[j..]) && !IsWhiteSpace(s[j - 1])
    ensures TrimEnd(s) == s[..j]
  {
    if j < |s| {
      assert s[..|s| - 1][j..] == s[j..|s| - 1];
      TrimEndStops(s[..|s| - 1], j);
    }
  }

  lemma WhiteSpaceJoin(s: Str, i: nat)
    requires i <= |s| && AllWhiteSpace(s[..i]) && AllWhiteSpace(s[i..])
    ensures AllWhiteSpace(s)
  {
    forall k | 0 <= k < |s|
      ensures IsWhiteSpace(s[k])
    {
      if k < i {
        assert s[k] == s[..i][k];
      } else {
        assert s[k] == s[i..][k - i];
      }
    }
  }

  /** Trim is the one string that has white space at neither end and is left
      over from `s` by cutting white space off both ends. */
  lemma TrimUnique(s: Str, r: Str)
    requires Trimmed(r) && StripsTo(s, r)
    ensures r == Trim(s)
  {
    var i, j :| 0 <= i <= j <= |s| && r == s[i..j] && AllWhiteSpace(s[..i]) && AllWhiteSpace(s[j..]);
    if i == j {
      TrimAllWhiteSpace(s, i);
    } else {
      assert r[0] == s[i] && r[|r| - 1] == s[j - 1];
      TrimCuts(s, i, j);
    }
  }

  lemma TrimCuts(s: Str, i: nat, j: nat)
    requires i < j <= |s| && AllWhiteSpace(s[..i]) && AllWhiteSpace(s[j..])
    requires !IsWhiteSpace(s[i]) && !IsWhiteSpace(s[j - 1])
    ensures Trim(s) == s[i..j]
  {
    TrimStartStops(s, i);
    var t := s[i..];
    assert t[j - i..] == s[j..];
    assert t[j - i - 1] == s[j - 1];
    TrimEndStops(t, j - i);
    assert t[..j - i] == s[i..j];
  }

  lemma TrimAllWhiteSpace(s: Str, i: nat)
    requires i <= |s| && AllWhiteSpace(s[..i]) && AllWhiteSpace(s[i..])
    ensures Trim(s) == []
  {
    WhiteSpaceJoin(s, i);
    TrimEmptyIff(s);
  }
}
