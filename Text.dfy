/** String helpers with the meaning JavaScript gives them: `toLowerCase` (on ASCII letters),
    the white space that `String.prototype.trim` removes, `includes`, and decimal formatting
    of numbers inside template literals. */
module Text {

  /** The JavaScript WhiteSpace and LineTerminator code points stripped by `trim()`. */
  predicate IsWhitespace(c: char)
  {
    var n := c as int;
    (9 <= n <= 13) || n == 32 || n == 0xA0 || n == 0x1680 || (0x2000 <= n <= 0x200A)
    || n == 0x2028 || n == 0x2029 || n == 0x202F || n == 0x205F || n == 0x3000 || n == 0xFEFF
  }

  /** `toLowerCase` restricted to the ASCII letters. */
  function LowerChar(c: char): (r: char)
    ensures 'A' <= c <= 'Z' ==> 'a' <= r <= 'z'
    ensures !('A' <= c <= 'Z') ==> r == c
  {
    if 'A' <= c <= 'Z' then (c as int + 32) as char else c
  }

  function Lower(s: string): (r: string)
    ensures |r| == |s|
    ensures forall i :: 0 <= i < |s| ==> r[i] == LowerChar(s[i])
  {
    seq(|s|, i requires 0 <= i < |s| => LowerChar(s[i]))
  }

  /** `hay.includes(needle)`. */
  predicate Contains(hay: string, needle: string)
  {
    exists i :: 0 <= i <= |hay| - |needle| && OccursAt(hay, needle, i)
  }

  /** `needle` occurs in `hay` starting at position `i`. */
  predicate OccursAt(hay: string, needle: string, i: int)
  {
    0 <= i && i + |needle| <= |hay| && hay[i..i + |needle|] == needle
  }

  predicate StartsWith(s: string, prefix: string)
  {
    |s| >= |prefix| && s[..|prefix|] == prefix
  }

  predicate EndsWith(s: string, suffix: string)
  {
    |s| >= |suffix| && s[|s| - |suffix|..] == suffix
  }

  lemma StartsWithAppend(s: string, t: string)
    ensures StartsWith(s + t, s)
  {
    assert (s + t)[..|s|] == s;
  }

  /** A prefix of `s` stays a prefix when text is appended to `s`. */
  lemma StartsWithExtend(s: string, p: string, t: string)
    requires StartsWith(s, p)
    ensures StartsWith(s + t, p)
  {
    assert (s + t)[..|p|] == s[..|p|];
  }

  lemma EndsWithAppend(s: string, t: string)
    ensures EndsWith(s + t, t)
  {
    assert (s + t)[|s + t| - |t|..] == t;
  }

  lemma EndsWithAppend3(s: string, t: string, u: string)
    ensures EndsWith(s + (t + u), u)
  {
    assert s + (t + u) == (s + t) + u;
    EndsWithAppend(s + t, u);
  }

  /** Two texts that start (or end) with prefixes differing at a common position cannot
      both be prefixes (suffixes) of one text. */
  lemma StartsWithBoth(s: string, p: string, q: string, k: nat)
    requires k < |p| && k < |q| && p[k] != q[k]
    ensures !(StartsWith(s, p) && StartsWith(s, q))
  {
    if StartsWith(s, p) {
      assert s[k] == s[..|p|][k] == p[k];
      assert |s| < |q| || s[..|q|][k] != q[k];
    }
  }

  lemma EndsWithBoth(s: string, p: string, q: string, k: nat)
    requires 0 < k <= |p| && k <= |q| && p[|p| - k] != q[|q| - k]
    ensures !(EndsWith(s, p) && EndsWith(s, q))
  {
    if EndsWith(s, p) {
      assert s[|s| - k] == s[|s| - |p|..][|p| - k] == p[|p| - k];
      assert |s| < |q| || s[|s| - |q|..][|q| - k] != q[|q| - k];
    }
  }

  function TrimStart(s: string): (r: string)
    ensures r == [] || !IsWhitespace(r[0])
    ensures |r| <= |s|
  {
    if s != [] && IsWhitespace(s[0]) then TrimStart(s[1..]) else s
  }

  function TrimEnd(s: string): (r: string)
    ensures r == [] || !IsWhitespace(r[|r| - 1])
    ensures |r| <= |s|
  {
    if s != [] && IsWhitespace(s[|s| - 1]) then TrimEnd(s[..|s| - 1]) else s
  }

  /** `s.trim()`. */
  function Trim(s: string): string
  {
    TrimEnd(TrimStart(s))
  }

  /** Every character is white space: what `!s.trim()` tests. */
  predicate IsBlank(s: string)
  {
    forall i :: 0 <= i < |s| ==> IsWhitespace(s[i])
  }

  lemma {:induction false} TrimStartBlank(s: string)
    ensures TrimStart(s) == [] <==> IsBlank(s)
  {
    if s == [] {
    } else if IsWhitespace(s[0]) {
      var t := s[1..];
      TrimStartBlank(t);
      if IsBlank(t) {
        forall i | 0 <= i < |s| ensures IsWhitespace(s[i]) {
          if i > 0 { assert s[i] == t[i - 1]; }
        }
      } else {
        var j :| 0 <= j < |t| && !IsWhitespace(t[j]);
        assert s[j + 1] == t[j];
      }
    } else {
      assert !IsWhitespace(s[0]);
    }
  }

  lemma {:induction false} TrimEndOfNonBlank(s: string)
    requires s == [] || !IsWhitespace(s[0])
    ensures TrimEnd(s) == [] <==> s == []
  {
    if s != [] && IsWhitespace(s[|s| - 1]) {
      assert |s| > 1;
      TrimEndOfNonBlank(s[..|s| - 1]);
    }
  }

  /** `trim()` yields the empty string exactly on blank input. */
  lemma TrimEmptyIffBlank(s: string)
    ensures Trim(s) == [] <==> IsBlank(s)
  {
    TrimStartBlank(s);
    TrimEndOfNonBlank(TrimStart(s));
  }

  /** Trimming text that starts with a non-white-space character keeps the start. A line made
      of `head` followed by more text keeps `head` when `head` ends in non-white space too. */
  lemma {:induction false} TrimKeepsPrefix(head: string, rest: string)
    requires head != [] && !IsWhitespace(head[0]) && !IsWhitespace(head[|head| - 1])
    ensures |Trim(head + rest)| >= |head| && Trim(head + rest)[..|head|] == head
  {
    var s := head + rest;
    assert TrimStart(s) == s;
    TrimEndKeeps(s, |head|);
  }

  lemma {:induction false} TrimEndKeeps(s: string, k: nat)
    requires 0 < k <= |s| && !IsWhitespace(s[k - 1])
    ensures |TrimEnd(s)| >= k && TrimEnd(s)[..k] == s[..k]
    decreases |s|
  {
    if IsWhitespace(s[|s| - 1]) {
      assert k < |s|;
      var t := s[..|s| - 1];
      assert t[k - 1] == s[k - 1];
      TrimEndKeeps(t, k);
      assert t[..k] == s[..k];
    }
  }

  function DigitChar(d: nat): (c: char)
    requires d < 10
    ensures '0' <= c <= '9'
  {
    ('0' as int + d) as char
  }

  /** Decimal rendering of a natural number, as `${n}` prints it. */
  function NatToString(n: nat): (r: string)
    ensures |r| >= 1
    ensures forall i :: 0 <= i < |r| ==> '0' <= r[i] <= '9'
    decreases n
  {
    if n < 10 then [DigitChar(n)] else NatToString(n / 10) + [DigitChar(n % 10)]
  }

  /** Decimal rendering of an integer, with a leading '-' for negative values. */
  function IntToString(n: int): (r: string)
    ensures |r| >= 1
    ensures (r[0] == '-') <==> n < 0
  {
    if n < 0 then "-" + NatToString(-n) else NatToString(n)
  }
}
