/** String helpers standing in for the Python string methods the weather app
    relies on: `strip`, `lower`, `endswith`, the substring test `in`,
    `%H:%M` two-digit formatting and a ", " separated label. */
module Text {

  /** The characters Python's `str.isspace` accepts (and so `str.strip`
      removes when called without arguments). */
  predicate IsSpace(c: char) {
    || c == ' '
    || ('\t' <= c <= '\r')
    || ('\U{1C}' <= c <= '\U{1F}')
    || c == '\U{85}' || c == '\U{A0}' || c == '\U{1680}'
    || ('\U{2000}' <= c <= '\U{200A}')
    || c == '\U{2028}' || c == '\U{2029}' || c == '\U{202F}'
    || c == '\U{205F}' || c == '\U{3000}'
  }

  predicate AllSpace(s: string) {
    forall i :: 0 <= i < |s| ==> IsSpace(s[i])
  }

  /** Drops leading whitespace: the result is a suffix of `s`, everything cut
      off was whitespace, and what is left does not start with whitespace. */
  function TrimLeft(s: string): (r: string)
    ensures |r| <= |s| && r == s[|s| - |r|..]
    ensures AllSpace(s[..|s| - |r|])
    ensures r == [] || !IsSpace(r[0])
  {
    if |s| > 0 && IsSpace(s[0]) then TrimLeft(s[1..]) else s
  }

  /** Drops trailing whitespace: the result is a prefix of `s`, everything cut
      off was whitespace, and what is left does not end with whitespace. */
  function TrimRight(s: string): (r: string)
    ensures |r| <= |s| && r == s[..|r|]
    ensures AllSpace(s[|r|..])
    ensures r == [] || !IsSpace(r[|r| - 1])
  {
    if |s| > 0 && IsSpace(s[|s| - 1]) then
      var p := s[..|s| - 1];
      var r := TrimRight(p);
      assert s[..|r|] == p[..|r|];
      assert s[|r|..] == p[|r|..] + [s[|s| - 1]];
      r
    else s
  }

  /** Python `s.strip()`. */
  function Strip(s: string): string {
    TrimRight(TrimLeft(s))
  }

  /** `s.strip()` is empty exactly when `s` consists of whitespace only. */
  lemma StripEmptyIff(s: string)
    ensures Strip(s) == [] <==> AllSpace(s)
  {
    var l := TrimLeft(s);
    if l == [] {
      assert s[..|s|] == s;
    } else {
      assert s[|s| - |l|] == l[0];
      assert l[0..][0] == l[0];
    }
  }

  /** Stripping twice is stripping once. */
  lemma StripIdempotent(s: string)
    ensures Strip(Strip(s)) == Strip(s)
  {
    var r := Strip(s);
    if r != [] {
      assert !IsSpace(r[0]) by {
        var l := TrimLeft(s);
        assert r == l[..|r|];
      }
      assert TrimLeft(r) == r;
      assert !IsSpace(r[|r| - 1]);
    }
  }

  /** Python `str.lower` restricted to ASCII letters. */
  function LowerChar(c: char): (r: char)
    ensures 'A' <= c <= 'Z' ==> 'a' <= r <= 'z' && r as int - c as int == 32
    ensures !('A' <= c <= 'Z') ==> r == c
  {
    if 'A' <= c <= 'Z' then (c as int + 32) as char else c
  }

  function Lower(s: string): (r: string)
    ensures |r| == |s|
    ensures forall i :: 0 <= i < |s| ==> r[i] == LowerChar(s[i])
  {
    seq(|s|, i requires 0 <= i < |s| => LowerChar(s[i]))
  }

  predicate IsLower(s: string) {
    forall i :: 0 <= i < |s| ==> !('A' <= s[i] <= 'Z')
  }

  /** A lower-cased string has no upper-case ASCII letter, and lowering it
      again changes nothing (the app lowers the condition twice). */
  lemma LowerIdempotent(s: string)
    ensures IsLower(Lower(s))
    ensures Lower(Lower(s)) == Lower(s)
  {
  }

  /** Python `s.endswith(suffix)` for a one-character suffix. */
  predicate EndsWithChar(s: string, c: char) {
    |s| > 0 && s[|s| - 1] == c
  }

  predicate StartsWith(s: string, p: string) {
    |p| <= |s| && s[..|p|] == p
  }

  /** `p` occurs in `s` starting at position `i`. */
  predicate OccursAt(s: string, p: string, i: int) {
    0 <= i <= |s| - |p| && s[i..i + |p|] == p
  }

  /** Python `p in s`: `p` occurs somewhere in `s`, scanning left to right. */
  predicate Contains(s: string, p: string)
    decreases |s|
  {
    StartsWith(s, p) || (|s| > 0 && Contains(s[1..], p))
  }

  /** The scanning test agrees with the positional definition of a
      substring occurrence, in both directions. */
  lemma {:induction false} ContainsIff(s: string, p: string)
    ensures Contains(s, p) <==> exists i :: OccursAt(s, p, i)
    decreases |s|
  {
    if StartsWith(s, p) {
      assert OccursAt(s, p, 0);
    } else if |s| == 0 {
    } else {
      ContainsIff(s[1..], p);
      if Contains(s[1..], p) {
        var i :| OccursAt(s[1..], p, i);
        assert s[i + 1..i + 1 + |p|] == s[1..][i..i + |p|];
        assert OccursAt(s, p, i + 1);
      }
      forall i | OccursAt(s, p, i) ensures Contains(s, p) {
        if i != 0 {
          assert s[1..][i - 1..i - 1 + |p|] == s[i..i + |p|];
          assert OccursAt(s[1..], p, i - 1);
        }
      }
    }
  }

  /** The two decimal digits of `n`, zero padded (`%H`, `%M`). */
  function TwoDigits(n: nat): (r: string)
    requires n < 100
    ensures |r| == 2
    ensures '0' <= r[0] <= '9' && '0' <= r[1] <= '9'
  {
    [(n / 10 + '0' as int) as char, (n % 10 + '0' as int) as char]
  }

  /** Reads back two decimal digits. */
  function ParseTwoDigits(s: string): (n: nat)
    requires |s| == 2 && '0' <= s[0] <= '9' && '0' <= s[1] <= '9'
    ensures n < 100
  {
    (s[0] as int - '0' as int) * 10 + (s[1] as int - '0' as int)
  }

  lemma TwoDigitsRoundTrip(n: nat)
    requires n < 100
    ensures ParseTwoDigits(TwoDigits(n)) == n
  {
  }

  /** Splits `s` at every ", " separator. */
  function SplitFields(s: string): (r: seq<string>)
    ensures |r| >= 1
    decreases |s|
  {
    if s == [] then [[]]
    else if |s| >= 2 && s[0] == ',' && s[1] == ' ' then [[]] + SplitFields(s[2..])
    else
      var rest := SplitFields(s[1..]);
      [[s[0]] + rest[0]] + rest[1..]
  }

  /** Joins the fields with ", " between them. */
  function JoinFields(fs: seq<string>): string
    requires |fs| >= 1
  {
    if |fs| == 1 then fs[0] else fs[0] + ", " + JoinFields(fs[1..])
  }

  predicate NoComma(s: string) {
    forall i :: 0 <= i < |s| ==> s[i] != ','
  }

  /** A comma-free field followed by ", " is split off as the first field. */
  lemma {:induction false} SplitAfterField(x: string, tail: string)
    requires NoComma(x)
    ensures SplitFields(x + tail) ==
      var rest := SplitFields(tail); [x + rest[0]] + rest[1..]
    decreases |x|
  {
    if x == [] {
      var rest := SplitFields(tail);
      assert x + tail == tail;
      assert x + rest[0] == rest[0];
      assert [rest[0]] + rest[1..] == rest;
    } else {
      var s := x + tail;
      assert s[0] == x[0] && x[0] != ',';
      assert s[1..] == x[1..] + tail;
      assert NoComma(x[1..]) by {
        forall i | 0 <= i < |x[1..]| ensures x[1..][i] != ',' {
          assert x[1..][i] == x[i + 1];
        }
      }
      SplitAfterField(x[1..], tail);
      assert [x[0]] + (x[1..] + SplitFields(tail)[0]) == x + SplitFields(tail)[0];
    }
  }

  /** Splitting a join of comma-free fields gives the fields back. */
  lemma {:induction false} SplitJoinRoundTrip(fs: seq<string>)
    requires |fs| >= 1
    requires forall i :: 0 <= i < |fs| ==> NoComma(fs[i])
    ensures SplitFields(JoinFields(fs)) == fs
    decreases |fs|
  {
    if |fs| == 1 {
      SplitAfterField(fs[0], []);
      assert fs[0] + [] == fs[0];
    } else {
      SplitJoinRoundTrip(fs[1..]);
      var tail := JoinFields(fs[1..]);
      assert (", " + tail)[2..] == tail;
      var rest := SplitFields(", " + tail);
      assert rest == [[]] + fs[1..];
      assert rest[0] == [] && rest[1..] == fs[1..];
      assert fs[0] + rest[0] == fs[0];
      SplitAfterField(fs[0], ", " + tail);
      assert fs[0] + ", " + tail == fs[0] + (", " + tail);
      assert fs == [fs[0]] + fs[1..];
    }
  }
}
