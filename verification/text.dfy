/** Strings as `seq<char>`: the substring tests, ASCII case mapping, joining
    and decimal formatting that the services use when they build stream
    names, file names and error messages. */
module Text {

  /** `s.starts_with(p)` */
  predicate StartsWith(s: string, p: string) {
    |p| <= |s| && s[..|p|] == p
  }

  /** `s.ends_with(t)` */
  predicate EndsWith(s: string, t: string) {
    |t| <= |s| && s[|s| - |t|..] == t
  }

  /** `sub` occurs in `s` at position `i`. */
  predicate OccursAt(s: string, sub: string, i: int) {
    0 <= i && i + |sub| <= |s| && s[i..i + |sub|] == sub
  }

  /** `s.contains(sub)` */
  predicate Contains(s: string, sub: string) {
    exists i :: 0 <= i <= |s| - |sub| && OccursAt(s, sub, i)
  }

  /** The character `c` does not occur in `s`. */
  predicate Free(s: string, c: char) {
    forall i :: 0 <= i < |s| ==> s[i] != c
  }

  lemma OccursAtPrefix(s: string, t: string, sub: string, i: int)
    requires OccursAt(s, sub, i)
    ensures OccursAt(s + t, sub, i) && OccursAt(t + s, sub, |t| + i)
  {
    assert (s + t)[i..i + |sub|] == s[i..i + |sub|];
    assert (t + s)[|t| + i..|t| + i + |sub|] == s[i..i + |sub|];
  }

  /** A string contains whatever stands in its middle. */
  lemma ContainsMiddle(a: string, b: string, c: string)
    ensures Contains(a + b + c, b)
  {
    var s := a + b + c;
    assert s[|a|..|a| + |b|] == b;
    assert OccursAt(s, b, |a|);
  }

  /** An occurrence of `sub` starts with the first character of `sub`. */
  lemma OccursAtHead(s: string, sub: string, i: int)
    requires OccursAt(s, sub, i) && |sub| > 0
    ensures s[i] == sub[0]
  {
    assert s[i..i + |sub|][0] == s[i];
  }

  /** An occurrence of `sub` starts with the first two characters of `sub`. */
  lemma OccursAtHead2(s: string, sub: string, i: int)
    requires OccursAt(s, sub, i) && |sub| > 1
    ensures s[i] == sub[0] && s[i + 1] == sub[1]
  {
    assert s[i..i + |sub|][0] == s[i] && s[i..i + |sub|][1] == s[i + 1];
  }

  /** An occurrence of `sub` at `i` puts `sub[j]` at `i + j`. */
  lemma OccursAtChar(s: string, sub: string, i: int, j: int)
    requires OccursAt(s, sub, i) && 0 <= j < |sub|
    ensures s[i + j] == sub[j]
  {
    assert s[i..i + |sub|][j] == s[i + j];
  }

  /** A string lacking one of the characters of `sub` does not contain it. */
  lemma AbsentCharNotContains(s: string, sub: string, j: int)
    requires 0 <= j < |sub| && Free(s, sub[j])
    ensures !Contains(s, sub)
  {
    if Contains(s, sub) {
      var i :| 0 <= i <= |s| - |sub| && OccursAt(s, sub, i);
      OccursAtChar(s, sub, i, j);
    }
  }

  /** An occurrence of `sub` cannot cover a character that `sub` lacks. */
  lemma NotContainsAcross(l: string, c: char, r: string, sub: string)
    requires Free(sub, c) && !Contains(l, sub) && !Contains(r, sub)
    ensures !Contains(l + [c] + r, sub)
  {
    var s := l + [c] + r;
    if Contains(s, sub) {
      var i :| 0 <= i <= |s| - |sub| && OccursAt(s, sub, i);
      if i + |sub| <= |l| {
        assert l[i..i + |sub|] == s[i..i + |sub|];
        assert OccursAt(l, sub, i);
      } else if i > |l| {
        assert r[i - |l| - 1..i - |l| - 1 + |sub|] == s[i..i + |sub|];
        assert OccursAt(r, sub, i - |l| - 1);
      } else {
        OccursAtChar(s, sub, i, |l| - i);
      }
    }
  }

  /** When `t` ends `s` and `t` starts with `c`, that `c` stands in `s`. */
  lemma EndsWithHead(s: string, t: string)
    requires EndsWith(s, t) && |t| > 0
    ensures s[|s| - |t|] == t[0]
  {
    assert s[|s| - |t|..][0] == s[|s| - |t|];
  }

  /** A string whose `k`-th character from the end differs from that of
      `t` does not end with `t`. */
  lemma MismatchNotEndsWith(s: string, t: string, k: nat)
    requires 0 < k <= |t| && k <= |s| && s[|s| - k] != t[|t| - k]
    ensures !EndsWith(s, t)
  {
    if |t| <= |s| {
      assert s[|s| - |t|..][|t| - k] == s[|s| - k];
    }
  }

  /** A single character that does not occur in a string is never found in it. */
  lemma FreeNotContains(s: string, c: char)
    requires Free(s, c)
    ensures !Contains(s, [c])
  {
    if Contains(s, [c]) {
      var i :| OccursAt(s, [c], i);
      OccursAtHead(s, [c], i);
    }
  }

  lemma FreeConcat(s: string, t: string, c: char)
    requires Free(s, c) && Free(t, c)
    ensures Free(s + t, c)
  {
    forall i | 0 <= i < |s + t| ensures (s + t)[i] != c {
      if i < |s| { assert (s + t)[i] == s[i]; } else { assert (s + t)[i] == t[i - |s|]; }
    }
  }

  // ---------------------------------------------------------------------
  // ASCII case mapping (`to_lowercase` / `to_uppercase` on ASCII symbols)

  function LowerChar(c: char): (r: char)
    ensures 'A' <= c <= 'Z' ==> r as int == c as int + 32
    ensures !('A' <= c <= 'Z') ==> r == c
  {
    if 'A' <= c <= 'Z' then (c as int + 32) as char else c
  }

  function UpperChar(c: char): (r: char)
    ensures 'a' <= c <= 'z' ==> r as int == c as int - 32
    ensures !('a' <= c <= 'z') ==> r == c
  {
    if 'a' <= c <= 'z' then (c as int - 32) as char else c
  }

  function Lower(s: string): (r: string)
    ensures |r| == |s|
    ensures forall i :: 0 <= i < |s| ==> r[i] == LowerChar(s[i])
  {
    if s == [] then [] else [LowerChar(s[0])] + Lower(s[1..])
  }

  function Upper(s: string): (r: string)
    ensures |r| == |s|
    ensures forall i :: 0 <= i < |s| ==> r[i] == UpperChar(s[i])
  {
    if s == [] then [] else [UpperChar(s[0])] + Upper(s[1..])
  }

  /** Case mapping only touches letters, so it keeps `c` out of a string iff it was out. */
  lemma {:induction false} LowerKeepsFree(s: string, c: char)
    requires !('A' <= c <= 'Z') && !('a' <= c <= 'z')
    ensures Free(Lower(s), c) <==> Free(s, c)
    ensures Free(Upper(s), c) <==> Free(s, c)
  {
    var l, u := Lower(s), Upper(s);
    if Free(s, c) {
      forall i | 0 <= i < |s| ensures l[i] != c && u[i] != c {
        assert l[i] == LowerChar(s[i]) && u[i] == UpperChar(s[i]);
      }
    }
    if !Free(s, c) {
      var i :| 0 <= i < |s| && s[i] == c;
      assert l[i] == LowerChar(s[i]) == c;
      assert u[i] == UpperChar(s[i]) == c;
    }
  }

  /** `parts.join(sep)` */
  function Join(parts: seq<string>, sep: string): string {
    if parts == [] then []
    else if |parts| == 1 then parts[0]
    else parts[0] + sep + Join(parts[1..], sep)
  }

  /** Joining two non-empty lists is joining each and putting `sep` between. */
  lemma {:induction false} JoinAppend(a: seq<string>, b: seq<string>, sep: string)
    requires |a| > 0 && |b| > 0
    ensures Join(a + b, sep) == Join(a, sep) + sep + Join(b, sep)
  {
    if |a| == 1 {
      assert (a + b)[1..] == b;
    } else {
      assert (a + b)[1..] == a[1..] + b;
      JoinAppend(a[1..], b, sep);
    }
  }

  /** When `sub` starts with a character that `s` lacks, every occurrence of
      `sub` in `s + t` lies inside `t`. */
  lemma NotContainsAfterFree(s: string, t: string, sub: string)
    requires |sub| > 0 && Free(s, sub[0]) && !Contains(t, sub)
    ensures !Contains(s + t, sub)
  {
    if Contains(s + t, sub) {
      var i :| 0 <= i <= |s + t| - |sub| && OccursAt(s + t, sub, i);
      OccursAtHead(s + t, sub, i);
      assert i >= |s|;
      assert t[i - |s|..i - |s| + |sub|] == (s + t)[i..i + |sub|];
      assert OccursAt(t, sub, i - |s|);
    }
  }

  // ---------------------------------------------------------------------
  // Decimal formatting (`{}` and `{:02}`) and its inverse

  predicate IsDigit(c: char) {
    '0' <= c <= '9'
  }

  predicate AllDigits(s: string) {
    forall i :: 0 <= i < |s| ==> IsDigit(s[i])
  }

  function DigitChar(d: nat): (c: char)
    requires d < 10
    ensures IsDigit(c) && c as int - '0' as int == d
  {
    ('0' as int + d) as char
  }

  /** The value of a string of decimal digits. */
  function DecimalValue(s: string): nat
    requires AllDigits(s)
  {
    if s == [] then 0
    else DecimalValue(s[..|s| - 1]) * 10 + (s[|s| - 1] as int - '0' as int)
  }

  /** `format!("{}", n)` for a non-negative number: no leading zeros. */
  function NatToDecimal(n: nat): (s: string)
    ensures |s| >= 1 && AllDigits(s)
    ensures |s| == 1 <==> n < 10
  {
    if n < 10 then [DigitChar(n)] else NatToDecimal(n / 10) + [DigitChar(n % 10)]
  }

  /** `format!("{}", i)` for a signed number. */
  function IntToDecimal(i: int): string {
    if i < 0 then "-" + NatToDecimal(-i) else NatToDecimal(i)
  }

  /** `format!("{:02}", n)`: at least two digits, zero padded. */
  function Pad2(n: nat): string {
    if n < 10 then "0" + NatToDecimal(n) else NatToDecimal(n)
  }

  /** Reading back what `NatToDecimal` wrote gives the number again. */
  lemma {:induction false} DecimalRoundTrip(n: nat)
    ensures DecimalValue(NatToDecimal(n)) == n
  {
    if n >= 10 {
      var s := NatToDecimal(n);
      DecimalRoundTrip(n / 10);
      assert s[..|s| - 1] == NatToDecimal(n / 10);
    }
  }

  /** A leading zero adds nothing to the value. */
  lemma {:induction false} LeadingZero(s: string)
    requires AllDigits(s)
    ensures AllDigits("0" + s) && DecimalValue("0" + s) == DecimalValue(s)
  {
    if s != [] {
      var t := "0" + s;
      assert t[..|t| - 1] == "0" + s[..|s| - 1];
      LeadingZero(s[..|s| - 1]);
    }
  }

  lemma Pad2Facts(n: nat)
    requires n < 100
    ensures |Pad2(n)| == 2 && AllDigits(Pad2(n)) && DecimalValue(Pad2(n)) == n
  {
    DecimalRoundTrip(n);
    if n < 10 {
      LeadingZero(NatToDecimal(n));
    } else {
      assert |NatToDecimal(n / 10)| == 1;
    }
  }

  lemma NatToDecimalInjective(a: nat, b: nat)
    requires NatToDecimal(a) == NatToDecimal(b)
    ensures a == b
  {
    DecimalRoundTrip(a);
    DecimalRoundTrip(b);
  }
}
