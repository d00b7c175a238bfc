/**
 * The handful of Python `str`, `int` and list operations the system leans on,
 * written out with Python's semantics.  Assumptions: `isdigit` and `int()`
 * are taken over ASCII digits only (no other Unicode digits, no `_`
 * separators); `lower()` is taken over ASCII and the Latin-1 capitals, which
 * covers every literal the system compares against.
 */
module PyText {
  import opened Dicts

  predicate StartsWith(s: string, prefix: string)
  {
    |prefix| <= |s| && s[..|prefix|] == prefix
  }

  /** `t in s` for strings: `t` occurs as a contiguous piece of `s`. */
  predicate Contains(s: string, t: string)
    decreases |s|
  {
    StartsWith(s, t) || (|s| > 0 && Contains(s[1..], t))
  }

  /** Witness form of `Contains`. */
  lemma ContainsAt(s: string, t: string, i: int)
    requires 0 <= i && i + |t| <= |s| && s[i..i + |t|] == t
    ensures Contains(s, t)
    decreases i
  {
    if i > 0 {
      assert s[1..][i - 1..i - 1 + |t|] == s[i..i + |t|];
      ContainsAt(s[1..], t, i - 1);
    }
  }

  // ---------------------------------------------------------------------------
  // Whitespace and `str.strip()`
  // ---------------------------------------------------------------------------

  /** The characters for which Python's `str.isspace()` holds. */
  predicate IsSpace(c: char)
  {
    ('\t' <= c <= '\r') || ('\U{1C}' <= c <= ' ') || c == '\U{85}' || c == '\U{A0}'
    || c == '\U{1680}' || ('\U{2000}' <= c <= '\U{200A}') || c == '\U{2028}' || c == '\U{2029}'
    || c == '\U{202F}' || c == '\U{205F}' || c == '\U{3000}'
  }

  function LStrip(s: string): (r: string)
    ensures |r| <= |s| && r == s[|s| - |r|..]
    ensures |r| > 0 ==> !IsSpace(r[0])
    decreases |s|
  {
    if |s| > 0 && IsSpace(s[0]) then LStrip(s[1..]) else s
  }

  function RStrip(s: string): (r: string)
    ensures |r| <= |s| && r == s[..|r|]
    ensures |r| > 0 ==> !IsSpace(r[|r| - 1])
    decreases |s|
  {
    if |s| > 0 && IsSpace(s[|s| - 1]) then RStrip(s[..|s| - 1]) else s
  }

  /** `s.strip()`. */
  function Strip(s: string): string
  {
    RStrip(LStrip(s))
  }

  // ---------------------------------------------------------------------------
  // `str.split(sep)` and its inverse `sep.join(parts)`
  // ---------------------------------------------------------------------------

  /** `s.split(sep)` for a non-empty separator: scanned left to right, with
      non-overlapping matches; always at least one part. */
  function Split(s: string, sep: string): (parts: seq<string>)
    requires |sep| > 0
    ensures |parts| >= 1
    decreases |s|
  {
    if |s| < |sep| then [s]
    else if StartsWith(s, sep) then [""] + Split(s[|sep|..], sep)
    else
      var rest := Split(s[1..], sep);
      [[s[0]] + rest[0]] + rest[1..]
  }

  /** `sep.join(parts)`. */
  function Join(parts: seq<string>, sep: string): string
    decreases |parts|
  {
    if |parts| == 0 then ""
    else if |parts| == 1 then parts[0]
    else parts[0] + sep + Join(parts[1..], sep)
  }

  lemma JoinCons(a: string, rest: seq<string>, sep: string)
    ensures Join([a] + rest, sep) == if |rest| == 0 then a else a + sep + Join(rest, sep)
  {
    assert ([a] + rest)[1..] == rest;
  }

  /** Splitting loses nothing: joining the parts with the separator gives back
      the original string. */
  lemma {:induction false} SplitJoin(s: string, sep: string)
    requires |sep| > 0
    ensures Join(Split(s, sep), sep) == s
    decreases |s|
  {
    if |s| < |sep| {
    } else if StartsWith(s, sep) {
      SplitJoin(s[|sep|..], sep);
      SplitJoinAtSeparator(s, sep);
    } else {
      SplitJoin(s[1..], sep);
      SplitJoinAtChar(s, sep);
    }
  }

  lemma SplitJoinAtSeparator(s: string, sep: string)
    requires |sep| > 0 && |s| >= |sep| && StartsWith(s, sep)
    requires Join(Split(s[|sep|..], sep), sep) == s[|sep|..]
    ensures Join(Split(s, sep), sep) == s
  {
    var rest := Split(s[|sep|..], sep);
    assert Split(s, sep) == [""] + rest;
    JoinCons("", rest, sep);
    assert s == s[..|sep|] + s[|sep|..];
  }

  lemma SplitJoinAtChar(s: string, sep: string)
    requires |sep| > 0 && |s| >= |sep| && !StartsWith(s, sep)
    requires Join(Split(s[1..], sep), sep) == s[1..]
    ensures Join(Split(s, sep), sep) == s
  {
    var rest := Split(s[1..], sep);
    var a, t := [s[0]] + rest[0], rest[1..];
    assert Split(s, sep) == [a] + t;
    assert rest == [rest[0]] + t;
    JoinCons(a, t, sep);
    JoinCons(rest[0], t, sep);
    var c, tail := s[0], s[1..];
    assert s == [c] + tail;
    if |t| > 0 {
      var j := Join(t, sep);
      assert tail == rest[0] + sep + j;
      AppendAssoc([c], rest[0], sep, j);
    }
  }

  lemma AppendAssoc(w: string, x: string, y: string, z: string)
    ensures (w + x) + y + z == w + (x + y + z)
  {
  }

  /** A string without the separator is one part. */
  lemma {:induction false} SplitWithoutSeparator(s: string, sep: string)
    requires |sep| > 0 && !Contains(s, sep)
    ensures Split(s, sep) == [s]
    decreases |s|
  {
    if |s| >= |sep| {
      assert !StartsWith(s, sep);
      SplitWithoutSeparator(s[1..], sep);
      assert s == [s[0]] + s[1..];
    }
  }

  /** `s.split(c, 1)` unpacked into two names: the text before the first `c`
      and the text after it; `None` when `c` does not occur (Python raises). */
  function SplitFirst(s: string, c: char): (r: Option<(string, string)>)
    ensures r.Some? ==> r.value.0 + [c] + r.value.1 == s && c !in r.value.0
    ensures r.None? <==> c !in s
    decreases |s|
  {
    if |s| == 0 then None
    else if s[0] == c then Some(([], s[1..]))
    else
      match SplitFirst(s[1..], c)
      case None => None
      case Some(p) =>
        assert s == [s[0]] + s[1..];
        Some(([s[0]] + p.0, p.1))
  }

  /** `split(c, 1)` cuts at the first occurrence: at `i` when `s[i]` is `c`
      and no earlier character is. */
  lemma {:induction false} SplitFirstAt(s: string, c: char, i: int)
    requires 0 <= i < |s| && s[i] == c && c !in s[..i]
    ensures SplitFirst(s, c) == Some((s[..i], s[i + 1..]))
    decreases i
  {
    if i > 0 {
      assert s[0] == s[..i][0];
      assert s[1..][..i - 1] == s[1..i];
      SplitFirstAt(s[1..], c, i - 1);
      assert [s[0]] + s[1..i] == s[..i];
      assert s[1..][i..] == s[i + 1..];
    }
  }

  // ---------------------------------------------------------------------------
  // Case folding
  // ---------------------------------------------------------------------------

  function LowerChar(c: char): char
  {
    if 'A' <= c <= 'Z' || ('\U{C0}' <= c <= '\U{DE}' && c != '\U{D7}') then (c as int + 32) as char
    else c
  }

  /** `s.lower()`. */
  function Lower(s: string): (r: string)
    ensures |r| == |s|
  {
    seq(|s|, i requires 0 <= i < |s| => LowerChar(s[i]))
  }

  // ---------------------------------------------------------------------------
  // Digits, `str(n)`, `int(s)`
  // ---------------------------------------------------------------------------

  predicate IsDigit(c: char)
  {
    '0' <= c <= '9'
  }

  /** `s.isdigit()`: non-empty and digits only. */
  predicate IsDigits(s: string)
  {
    |s| > 0 && forall i :: 0 <= i < |s| ==> IsDigit(s[i])
  }

  /** The value of a string of decimal digits. */
  function DigitsValue(s: string): nat
    decreases |s|
  {
    if |s| == 0 then 0
    else DigitsValue(s[..|s| - 1]) * 10 + (if IsDigit(s[|s| - 1]) then s[|s| - 1] as int - '0' as int else 0)
  }

  function DigitChar(d: nat): char
    requires d < 10
  {
    ('0' as int + d) as char
  }

  /** `str(n)` for a natural number. */
  function ShowNat(n: nat): string
    decreases n
  {
    if n < 10 then [DigitChar(n)] else ShowNat(n / 10) + [DigitChar(n % 10)]
  }

  /** `str(i)` for any integer. */
  function ShowInt(i: int): string
  {
    if i < 0 then "-" + ShowNat(-i) else ShowNat(i)
  }

  /** `str(n)` is all digits and reads back as `n`. */
  lemma {:induction false} ShowNatReadsBack(n: nat)
    ensures IsDigits(ShowNat(n))
    ensures DigitsValue(ShowNat(n)) == n
    decreases n
  {
    if n >= 10 {
      ShowNatReadsBack(n / 10);
      var s := ShowNat(n);
      assert s[..|s| - 1] == ShowNat(n / 10);
    }
  }

  /** `str(i)` of a negative number starts with '-', so it is never all digits. */
  lemma ShowNegativeNotDigits(i: int)
    requires i < 0
    ensures !IsDigits(ShowInt(i))
  {
    assert ShowInt(i)[0] == '-';
  }

  /** `int(t)` for a base-10 literal: surrounding whitespace, an optional sign,
      then at least one digit; `None` where Python raises `ValueError`. */
  function ParseInt(t: string): (r: Option<int>)
  {
    var u := Strip(t);
    if |u| > 0 && (u[0] == '-' || u[0] == '+') then
      var v: int := DigitsValue(u[1..]);
      if IsDigits(u[1..]) then Some(if u[0] == '-' then -v else v)
      else None
    else if IsDigits(u) then Some(DigitsValue(u))
    else None
  }

  /** `sum(ord(c) for c in s)`. */
  function CodePointSum(s: string): nat
    decreases |s|
  {
    if |s| == 0 then 0 else CodePointSum(s[..|s| - 1]) + s[|s| - 1] as int
  }

  // ---------------------------------------------------------------------------
  // List slicing and indexing
  // ---------------------------------------------------------------------------

  /** `xs[:n]`: the first `n` elements, the whole list when `n` is larger, and
      for negative `n` all but the last `-n` elements. */
  function PyTake<T>(xs: seq<T>, n: int): (r: seq<T>)
    ensures |r| == if n >= 0 then (if n < |xs| then n else |xs|) else (if |xs| + n > 0 then |xs| + n else 0)
    ensures r == xs[..|r|]
  {
    if n >= 0 then (if n < |xs| then xs[..n] else xs)
    else if |xs| + n > 0 then xs[..|xs| + n] else []
  }

  /** A prefix one longer is the shorter prefix and the next element. */
  lemma PrefixStep<T>(xs: seq<T>, n: nat)
    requires 0 < n <= |xs|
    ensures xs[..n] == xs[..n - 1] + [xs[n - 1]]
  {
  }

  /** The position `xs[k]` reads for a list of length `len`, negative `k`
      counting from the end; `None` where Python raises `IndexError`. */
  function PyIndex(len: nat, k: int): (r: Option<nat>)
    ensures r.Some? <==> -(len as int) <= k < len
    ensures r.Some? ==> r.value < len && (if k >= 0 then r.value == k else r.value == len + k)
  {
    if 0 <= k < len then Some(k) else if -(len as int) <= k < 0 then Some(len + k) else None
  }
}
