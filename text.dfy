/** Optional values: Python's `None` or a value. */
module Wrappers {

  datatype Option<+T> = None | Some(value: T) {

    /** Python's `x if x is not None else default`. */
    function GetOr(default: T): T {
      match this
      case Some(v) => v
      case None => default
    }
  }
}

/**
  The handful of Python string operations the viewer relies on, written out
  with Python's own semantics: `sep.join(parts)`, `c * n`, the prefix slice
  `s[:k]` (whose bound may be negative), left-justification `f"{s:<{w}}"`,
  `strip()`, `upper()`/`lower()` and `s.count(c)`.
*/
module Text {

  function Min(a: int, b: int): int { if a <= b then a else b }
  function Max(a: int, b: int): int { if a >= b then a else b }

  /** `c * n`: the string of n copies of c. */
  function Repeat(c: char, n: nat): (r: string)
    ensures |r| == n
    ensures forall i :: 0 <= i < n ==> r[i] == c
  {
    if n == 0 then "" else [c] + Repeat(c, n - 1)
  }

  /** `sep.join(parts)`. */
  function Join(sep: string, parts: seq<string>): string
  {
    if |parts| == 0 then ""
    else if |parts| == 1 then parts[0]
    else parts[0] + sep + Join(sep, parts[1..])
  }

  /** Total length of a list of strings. */
  function SumLengths(parts: seq<string>): nat
  {
    if |parts| == 0 then 0 else |parts[0]| + SumLengths(parts[1..])
  }

  /** A joined string is as long as its parts plus one separator between each pair. */
  lemma {:induction false} JoinLength(sep: string, parts: seq<string>)
    ensures |parts| == 0 ==> |Join(sep, parts)| == 0
    ensures |parts| > 0 ==> |Join(sep, parts)| == SumLengths(parts) + |sep| * (|parts| - 1)
  {
    if |parts| > 1 {
      JoinLength(sep, parts[1..]);
    }
  }

  /** When every part has the same length w, the join has length n*w + |sep|*(n-1). */
  lemma {:induction false} SumLengthsUniform(parts: seq<string>, w: nat)
    requires forall i :: 0 <= i < |parts| ==> |parts[i]| == w
    ensures SumLengths(parts) == |parts| * w
  {
    if |parts| > 0 {
      SumLengthsUniform(parts[1..], w);
    }
  }

  /** Number of occurrences of c in s: Python's `s.count(c)` for a one-character c. */
  function Count(c: char, s: string): nat
  {
    if |s| == 0 then 0 else (if s[0] == c then 1 else 0) + Count(c, s[1..])
  }

  lemma {:induction false} CountAppend(c: char, a: string, b: string)
    ensures Count(c, a + b) == Count(c, a) + Count(c, b)
  {
    if |a| == 0 {
      assert a + b == b;
    } else {
      assert (a + b)[1..] == a[1..] + b;
      CountAppend(c, a[1..], b);
    }
  }

  /** A string without c has no occurrence of it. */
  lemma {:induction false} CountAbsent(c: char, s: string)
    requires c !in s
    ensures Count(c, s) == 0
  {
    if |s| > 0 {
      assert s == [s[0]] + s[1..];
      CountAbsent(c, s[1..]);
    }
  }

  /**
    Python's prefix slice `s[:k]`: a non-negative k keeps the first k
    characters (all of s when k >= |s|); a negative k drops the last -k
    characters (nothing is left when -k >= |s|).
  */
  function PyTake(s: string, k: int): (r: string)
    ensures |r| == if k >= 0 then Min(k, |s|) else Max(0, |s| + k)
    ensures r == s[..|r|]
  {
    if k >= 0 then s[..Min(k, |s|)] else s[..Max(0, |s| + k)]
  }

  /** `f"{s:<{w}}"`: s left-justified in a field of w characters (never cut). */
  function PadRight(s: string, w: nat): (r: string)
    ensures |r| == Max(|s|, w)
    ensures r[..|s|] == s
    ensures forall i :: |s| <= i < |r| ==> r[i] == ' '
  {
    if |s| >= w then s else s + Repeat(' ', w - |s|)
  }

  /**
    The truncation idiom used throughout the viewer:
    `if len(s) > limit: s = s[:limit-3] + "..."`.
  */
  function Ellipsize(s: string, limit: int): string
  {
    if |s| > limit then PyTake(s, limit - 3) + "..." else s
  }

  /**
    With a limit of at least 3 the result never exceeds the limit: short text
    is kept as it is, long text becomes its first limit-3 characters and "...".
  */
  lemma EllipsizeBounded(s: string, limit: int)
    requires limit >= 3
    ensures var r := Ellipsize(s, limit);
      && |r| == Min(|s|, limit)
      && (|s| <= limit ==> r == s)
      && (|s| > limit ==> r == s[..limit - 3] + "...")
  {
  }

  /**
    Below a limit of 3 the slice bound `limit-3` is negative and Python slices
    from the end, so a truncated string can get longer than its limit, and even
    longer than the original text.
  */
  lemma EllipsizeSmallLimit(s: string, limit: int)
    requires limit < 3 && |s| > limit
    ensures |Ellipsize(s, limit)| == Max(0, |s| + limit - 3) + 3
    ensures |Ellipsize(s, limit)| > limit
  {
  }

  /** Characters Python's `str.strip()` removes (the ASCII ones). */
  predicate IsSpace(c: char)
  {
    c == ' ' || c == '\t' || c == '\n' || c == '\r' || c == '\U{0b}' || c == '\U{0c}'
    || ('\U{1c}' <= c <= '\U{1f}')
  }

  /** `s.lstrip()`. */
  function StripLeft(s: string): string
  {
    if |s| > 0 && IsSpace(s[0]) then StripLeft(s[1..]) else s
  }

  /** `s.rstrip()`. */
  function StripRight(s: string): string
  {
    if |s| > 0 && IsSpace(s[|s| - 1]) then StripRight(s[..|s| - 1]) else s
  }

  /** `s.strip()`. */
  function Strip(s: string): string
  {
    StripRight(StripLeft(s))
  }

  /** Stripping on the left drops exactly the leading spaces. */
  lemma {:induction false} StripLeftSpec(s: string)
    ensures var r := StripLeft(s);
      && |r| <= |s| && r == s[|s| - |r|..]
      && (|r| > 0 ==> !IsSpace(r[0]))
      && forall i :: 0 <= i < |s| - |r| ==> IsSpace(s[i])
    decreases |s|
  {
    if |s| > 0 && IsSpace(s[0]) {
      StripLeftSpec(s[1..]);
    }
  }

  /** Stripping on the right drops exactly the trailing spaces. */
  lemma {:induction false} StripRightSpec(s: string)
    ensures var r := StripRight(s);
      && |r| <= |s| && r == s[..|r|]
      && (|r| > 0 ==> !IsSpace(r[|r| - 1]))
      && forall i :: |r| <= i < |s| ==> IsSpace(s[i])
    decreases |s|
  {
    if |s| > 0 && IsSpace(s[|s| - 1]) {
      StripRightSpec(s[..|s| - 1]);
    }
  }

  /** A stripped string is a piece of the original, with no space at either end and only spaces around it. */
  lemma StripShape(s: string)
    ensures var r := Strip(s);
      && (|r| > 0 ==> !IsSpace(r[0]) && !IsSpace(r[|r| - 1]))
      && var i := |s| - |StripLeft(s)|;
      && 0 <= i <= |s| - |r| && r == s[i..i + |r|]
      && (forall k :: 0 <= k < i ==> IsSpace(s[k]))
      && (forall k :: i + |r| <= k < |s| ==> IsSpace(s[k]))
  {
    var l := StripLeft(s);
    StripLeftSpec(s);
    StripRightSpec(l);
    var r := StripRight(l);
    var i := |s| - |l|;
    assert r == l[..|r|];
    assert l == s[i..];
    assert r == s[i..i + |r|];
    forall k | i + |r| <= k < |s|
      ensures IsSpace(s[k])
    {
      assert s[k] == l[k - i];
    }
  }

  function UpperChar(c: char): char { if 'a' <= c <= 'z' then (c as int - 32) as char else c }
  function LowerChar(c: char): char { if 'A' <= c <= 'Z' then (c as int + 32) as char else c }

  /** `s.upper()` on ASCII letters. */
  function Upper(s: string): (r: string)
    ensures |r| == |s| && forall i :: 0 <= i < |s| ==> r[i] == UpperChar(s[i])
  {
    seq(|s|, i requires 0 <= i < |s| => UpperChar(s[i]))
  }

  /** `s.lower()` on ASCII letters. */
  function Lower(s: string): (r: string)
    ensures |r| == |s| && forall i :: 0 <= i < |s| ==> r[i] == LowerChar(s[i])
  {
    seq(|s|, i requires 0 <= i < |s| => LowerChar(s[i]))
  }

  /**
    Converting twice changes nothing more than converting once, converting to
    one case erases what the other did, both convert a concatenation part by
    part, and comparing in upper case agrees with comparing in lower case.
  */
  lemma CaseFolding(s: string, t: string)
    ensures Upper(Upper(s)) == Upper(s) && Lower(Lower(s)) == Lower(s)
    ensures Lower(Upper(s)) == Lower(s) && Upper(Lower(s)) == Upper(s)
    ensures Upper(s + t) == Upper(s) + Upper(t) && Lower(s + t) == Lower(s) + Lower(t)
    ensures Upper(s) == Upper(t) <==> Lower(s) == Lower(t)
  {
  }

  /** The four-letter spellings of null in any case, letter by letter. */
  predicate NullWord(v: string)
  {
    |v| == 4 && UpperChar(v[0]) == 'N' && UpperChar(v[1]) == 'U' && UpperChar(v[2]) == 'L' && UpperChar(v[3]) == 'L'
  }

  /**
    On ASCII text, `v.upper() == "NULL"` and `v.lower() == "null"` accept
    exactly the same strings: the four-letter spellings of null in any case.
  */
  lemma NullWordSpec(v: string)
    ensures NullWord(v) <==> Upper(v) == "NULL"
    ensures NullWord(v) <==> Lower(v) == "null"
  {
    if Upper(v) == "NULL" {
      assert |v| == 4;
      assert Upper(v)[0] == 'N' && Upper(v)[1] == 'U' && Upper(v)[2] == 'L' && Upper(v)[3] == 'L';
    }
    if NullWord(v) {
      assert Upper(v) == "NULL";
      assert Lower(v) == "null";
    }
    if Lower(v) == "null" {
      assert |v| == 4;
      assert Lower(v)[0] == 'n' && Lower(v)[1] == 'u' && Lower(v)[2] == 'l' && Lower(v)[3] == 'l';
    }
  }
}
