/**
 * The two JavaScript string builtins the forms depend on: `String.prototype.trim`
 * and `String.prototype.includes`, over characters modelled as `char`.
 */
module Text {

  /** The code points ECMAScript counts as WhiteSpace or LineTerminator, which `trim` removes. */
  predicate IsWhiteSpace(c: char) {
    || c == '\t' || c == '\n' || c == '\U{B}' || c == '\U{C}' || c == '\r' || c == ' '
    || c == '\U{A0}' || c == '\U{1680}' || ('\U{2000}' <= c <= '\U{200A}')
    || c == '\U{2028}' || c == '\U{2029}' || c == '\U{202F}' || c == '\U{205F}'
    || c == '\U{3000}' || c == '\U{FEFF}'
  }

  /** `trimStart`: drop white space from the front. `TrimStartSpec` says what is left. */
  function TrimStart(s: string): string {
    if s != [] && IsWhiteSpace(s[0]) then TrimStart(s[1..]) else s
  }

  /** `trimEnd`: drop white space from the back. `TrimEndSpec` says what is left. */
  function TrimEnd(s: string): string {
    if s != [] && IsWhiteSpace(s[|s| - 1]) then TrimEnd(s[..|s| - 1]) else s
  }

  /**
   * `s.trim()`: what is left after dropping white space at both ends. It is empty
   * exactly when `s` is all white space (`BlankIffAllWhiteSpace`); `TrimSlice`
   * says which slice of `s` it is.
   */
  function Trim(s: string): string {
    TrimEnd(TrimStart(s))
  }

  /** What `TrimStart` keeps is a suffix that starts with a non-white-space character; what it drops is white space. */
  lemma {:induction false} TrimStartSpec(s: string)
    ensures var r := TrimStart(s);
      && |r| <= |s| && r == s[|s| - |r|..]
      && (forall i :: 0 <= i < |s| - |r| ==> IsWhiteSpace(s[i]))
      && (r == [] || !IsWhiteSpace(r[0]))
  {
    if s != [] && IsWhiteSpace(s[0]) {
      TrimStartSpec(s[1..]);
      var r := TrimStart(s);
      forall i | 0 < i < |s| - |r|
        ensures IsWhiteSpace(s[i])
      {
        assert s[i] == s[1..][i - 1];
      }
    }
  }

  /** What `TrimEnd` keeps is a prefix that ends with a non-white-space character; what it drops is white space. */
  lemma {:induction false} TrimEndSpec(s: string)
    ensures var r := TrimEnd(s);
      && |r| <= |s| && r == s[..|r|]
      && (forall i :: |r| <= i < |s| ==> IsWhiteSpace(s[i]))
      && (r == [] || !IsWhiteSpace(r[|r| - 1]))
  {
    if s != [] && IsWhiteSpace(s[|s| - 1]) {
      TrimEndSpec(s[..|s| - 1]);
      var r := TrimEnd(s);
      forall i | |r| <= i < |s| - 1
        ensures IsWhiteSpace(s[i])
      {
        assert s[i] == s[..|s| - 1][i];
      }
    }
  }

  /** The trimmed string is no longer than `s` and starts and ends with a non-white-space character. */
  lemma TrimSpec(s: string)
    ensures var r := Trim(s);
      && |r| <= |s|
      && (r != [] ==> !IsWhiteSpace(r[0]) && !IsWhiteSpace(r[|r| - 1]))
  {
    var t := TrimStart(s);
    TrimStartSpec(s);
    TrimEndSpec(t);
    var r := TrimEnd(t);
    assert r != [] ==> r[0] == t[0];
  }

  /** The trimmed string is the slice of `s` that starts after its leading white space. */
  lemma TrimSlice(s: string)
    ensures var k := |s| - |TrimStart(s)|;
      0 <= k && k + |Trim(s)| <= |s| && Trim(s) == s[k..k + |Trim(s)|]
  {
    TrimStartSpec(s);
    TrimEndSpec(TrimStart(s));
  }

  /** What trimming drops is white space. */
  lemma TrimDropsWhiteSpace(s: string)
    ensures var k := |s| - |TrimStart(s)|;
      && 0 <= k && k + |Trim(s)| <= |s|
      && (forall i :: 0 <= i < k ==> IsWhiteSpace(s[i]))
      && (forall i :: k + |Trim(s)| <= i < |s| ==> IsWhiteSpace(s[i]))
  {
    var t := TrimStart(s);
    var k := |s| - |t|;
    var r := TrimEnd(t);
    TrimStartSpec(s);
    TrimEndSpec(t);
    forall i | k + |r| <= i < |s|
      ensures IsWhiteSpace(s[i])
    {
      assert s[i] == t[i - k];
    }
  }

  /** `!s.trim()`: the string is empty or white space only. */
  predicate IsBlank(s: string) {
    Trim(s) == []
  }

  lemma BlankIffAllWhiteSpace(s: string)
    ensures IsBlank(s) <==> forall i :: 0 <= i < |s| ==> IsWhiteSpace(s[i])
  {
    TrimSlice(s);
    TrimDropsWhiteSpace(s);
    TrimSpec(s);
    if !IsBlank(s) {
      var k := |s| - |TrimStart(s)|;
      assert s[k] == Trim(s)[0];
    }
  }

  /** `s.includes(sub)` */
  predicate Contains(s: string, sub: string) {
    exists k :: 0 <= k <= |s| && OccursAt(s, sub, k)
  }

  /** `sub` occurs in `s` starting at index `k`. */
  predicate OccursAt(s: string, sub: string, k: nat) {
    k + |sub| <= |s| && forall j :: 0 <= j < |sub| ==> s[k + j] == sub[j]
  }

  lemma {:induction false} TrimIdempotent(s: string)
    ensures Trim(Trim(s)) == Trim(s)
  {
    var r := Trim(s);
    TrimSpec(s);
    if r != [] {
      assert TrimStart(r) == r;
      assert TrimEnd(r) == r;
    }
  }

  /**
   * Looking for a non-empty word without white space in a string or in its trimmed
   * form gives the same answer: trimming only removes white space at the ends.
   */
  lemma ContainsIgnoresTrim(s: string, word: string)
    requires word != []
    requires forall i :: 0 <= i < |word| ==> !IsWhiteSpace(word[i])
    ensures Contains(s, word) <==> Contains(Trim(s), word)
  {
    if Contains(Trim(s), word) {
      TrimmedOccurrence(s, word);
    }
    if Contains(s, word) {
      UntrimmedOccurrence(s, word);
    }
  }

  lemma TrimmedOccurrence(s: string, word: string)
    requires Contains(Trim(s), word)
    ensures Contains(s, word)
  {
    var r := Trim(s);
    TrimSlice(s);
    var off := |s| - |TrimStart(s)|;
    var k :| 0 <= k <= |r| && OccursAt(r, word, k);
    UnshiftOccurrence(s, r, off, word, k);
  }

  lemma UntrimmedOccurrence(s: string, word: string)
    requires word != []
    requires forall i :: 0 <= i < |word| ==> !IsWhiteSpace(word[i])
    requires Contains(s, word)
    ensures Contains(Trim(s), word)
  {
    var r := Trim(s);
    TrimSlice(s);
    var off := |s| - |TrimStart(s)|;
    var n := |word|;
    var k :| 0 <= k <= |s| && OccursAt(s, word, k);
    assert r == s[off..off + |r|];
    assert s[k + 0] == word[0] && !IsWhiteSpace(s[k]);
    assert s[k + (n - 1)] == word[n - 1] && !IsWhiteSpace(s[k + n - 1]);
    assert off <= k && k + n <= off + |r| by {
      TrimDropsWhiteSpace(s);
    }
    ShiftOccurrence(s, r, off, word, k);
  }

  /** An occurrence inside the part of `s` that `r` copies from offset `off` is one in `r`. */
  lemma ShiftOccurrence(s: string, r: string, off: nat, word: string, k: nat)
    requires off + |r| <= |s|
    requires r == s[off..off + |r|]
    requires OccursAt(s, word, k) && off <= k && k + |word| <= off + |r|
    ensures OccursAt(r, word, k - off)
  {
    forall j | 0 <= j < |word|
      ensures r[k - off + j] == word[j]
    {
      assert r[k - off + j] == s[off + (k - off + j)];
    }
  }

  /** An occurrence in `r`, a copy of `s` from offset `off`, is one in `s`. */
  lemma UnshiftOccurrence(s: string, r: string, off: nat, word: string, k: nat)
    requires off + |r| <= |s|
    requires r == s[off..off + |r|]
    requires OccursAt(r, word, k)
    ensures OccursAt(s, word, off + k)
  {
    forall j | 0 <= j < |word|
      ensures s[off + k + j] == word[j]
    {
      assert r[k + j] == s[off + (k + j)];
    }
  }

  // ------------------------------------------------ numbers as decimal text

  predicate IsDigitChar(c: char) {
    '0' <= c <= '9'
  }

  function DigitChar(d: nat): (c: char)
    requires d < 10
    ensures IsDigitChar(c)
  {
    ('0' as int + d) as char
  }

  function DigitValue(c: char): (d: nat)
    requires IsDigitChar(c)
    ensures d < 10 && DigitChar(d) == c
  {
    (c as int - '0' as int)
  }

  /** `String(n)` for a non-negative integer: decimal digits, no leading zero. */
  function NatToString(n: nat): (r: string)
    ensures r != [] && forall i :: 0 <= i < |r| ==> IsDigitChar(r[i])
    ensures |r| > 1 ==> r[0] != '0'
    decreases n
  {
    if n < 10 then [DigitChar(n)] else NatToString(n / 10) + [DigitChar(n % 10)]
  }

  /** `String(i)` for any integer: a minus sign before the digits of a negative number. */
  function IntToString(i: int): (r: string)
    ensures r != []
  {
    if i < 0 then "-" + NatToString(-i) else NatToString(i)
  }

  /** The value of a string of decimal digits. */
  function ParseNat(s: string): nat
    requires forall i :: 0 <= i < |s| ==> IsDigitChar(s[i])
  {
    if s == [] then 0 else ParseNat(s[..|s| - 1]) * 10 + DigitValue(s[|s| - 1])
  }

  /** Reading back the decimal form of `n` gives `n`. */
  lemma {:induction false} ParseNatToString(n: nat)
    ensures ParseNat(NatToString(n)) == n
    decreases n
  {
    if n >= 10 {
      var r := NatToString(n);
      assert r[..|r| - 1] == NatToString(n / 10);
      ParseNatToString(n / 10);
    }
  }
}
