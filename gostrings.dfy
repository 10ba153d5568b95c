/**
 * The behaviour of the few functions of Go's `strings` package (and of the
 * built-in `len` on strings) that the validator relies on. Go strings are
 * UTF-8 byte strings; here a string is a sequence of Unicode scalar values,
 * and the byte length is computed from the UTF-8 encoding of each character.
 */
module GoStrings {

  /** Number of bytes of the UTF-8 encoding of one character. */
  function Utf8Width(c: char): (w: nat)
    ensures 1 <= w <= 4
    ensures w == 1 <==> (c as int) < 0x80
  {
    if (c as int) < 0x80 then 1
    else if (c as int) < 0x800 then 2
    else if (c as int) < 0x1_0000 then 3
    else 4
  }

  /** Go's `len(s)`: the length of `s` in bytes of UTF-8. */
  function ByteLen(s: string): (n: nat)
    ensures |s| <= n <= 4 * |s|
    ensures n == 0 <==> s == []
    ensures (forall i :: 0 <= i < |s| ==> (s[i] as int) < 0x80) ==> n == |s|
  {
    if s == [] then 0 else ByteLen(s[..|s| - 1]) + Utf8Width(s[|s| - 1])
  }

  /**
   * Go's `unicode.IsSpace`: the Latin-1 spaces '\t', '\n', '\v', '\f', '\r',
   * ' ', U+0085 and U+00A0, and the other characters of Unicode's White_Space
   * property.
   */
  predicate IsSpace(c: char) {
    var n := c as int;
    (0x09 <= n <= 0x0D) || n == 0x20 || n == 0x85 || n == 0xA0 ||
    n == 0x1680 || (0x2000 <= n <= 0x200A) || n == 0x2028 || n == 0x2029 ||
    n == 0x202F || n == 0x205F || n == 0x3000
  }

  predicate AllSpace(s: string) {
    forall i :: 0 <= i < |s| ==> IsSpace(s[i])
  }

  /** Drops the leading white space of `s`. */
  function TrimLeft(s: string): (r: string)
    ensures |r| <= |s|
  {
    if s != [] && IsSpace(s[0]) then TrimLeft(s[1..]) else s
  }

  /** Drops the trailing white space of `s`. */
  function TrimRight(s: string): string {
    if s != [] && IsSpace(s[|s| - 1]) then TrimRight(s[..|s| - 1]) else s
  }

  /** Go's `strings.TrimSpace`: `s` without its leading and trailing white space. */
  function TrimSpace(s: string): string {
    TrimRight(TrimLeft(s))
  }

  /** `TrimLeft` cuts a prefix of white space and stops at the first other character. */
  lemma {:induction false} TrimLeftCuts(s: string)
    ensures var r := TrimLeft(s);
      |r| <= |s| && r == s[|s| - |r|..] && AllSpace(s[..|s| - |r|]) && (r == [] || !IsSpace(r[0]))
  {
    if s != [] && IsSpace(s[0]) {
      TrimLeftCuts(s[1..]);
      var r := TrimLeft(s);
      assert forall k :: 1 <= k < |s| - |r| ==> s[k] == s[1..][..|s| - 1 - |r|][k - 1];
    }
  }

  /** `TrimRight` cuts a suffix of white space and stops at the last other character. */
  lemma {:induction false} TrimRightCuts(s: string)
    ensures var r := TrimRight(s);
      |r| <= |s| && r == s[..|r|] && AllSpace(s[|r|..]) && (r == [] || !IsSpace(r[|r| - 1]))
  {
    if s != [] && IsSpace(s[|s| - 1]) {
      TrimRightCuts(s[..|s| - 1]);
      var r := TrimRight(s);
      assert forall k :: |r| <= k < |s| - 1 ==> s[k] == s[..|s| - 1][k];
    }
  }

  /**
   * What `TrimSpace` keeps is the slice of the input that starts after its
   * leading white space; everything cut off is white space, and the result
   * neither begins nor ends with white space.
   */
  lemma TrimSpaceSlice(s: string)
    ensures var r, i := TrimSpace(s), |s| - |TrimLeft(s)|;
      i + |r| <= |s| && r == s[i..i + |r|] && AllSpace(s[..i]) && AllSpace(s[i + |r|..])
      && (r == [] || (!IsSpace(r[0]) && !IsSpace(r[|r| - 1])))
  {
    var left := TrimLeft(s);
    TrimLeftCuts(s);
    TrimRightCuts(left);
    var r := TrimRight(left);
    var i := |s| - |left|;
    assert s[i..i + |r|] == r;
    assert s[i + |r|..] == left[|r|..];
  }

  /** A string is blank when trimming white space leaves nothing of it. */
  lemma TrimSpaceEmptyIffAllSpace(s: string)
    ensures TrimSpace(s) == [] <==> AllSpace(s)
  {
    TrimSpaceSlice(s);
    var i := |s| - |TrimLeft(s)|;
    if TrimSpace(s) == [] {
      forall k | 0 <= k < |s| ensures IsSpace(s[k]) {
        if k < i { assert s[..i][k] == s[k]; } else { assert s[i..][k - i] == s[k]; }
      }
    } else {
      assert TrimSpace(s)[0] == s[i];
    }
  }

  /** Go's `strings.HasPrefix`. */
  predicate HasPrefix(s: string, prefix: string) {
    |prefix| <= |s| && s[..|prefix|] == prefix
  }

  /** Go's `strings.HasSuffix`. */
  predicate HasSuffix(s: string, suffix: string) {
    |suffix| <= |s| && s[|s| - |suffix|..] == suffix
  }

  /** A string that ends in a non-empty `a` ends in the last character of `a`. */
  lemma SuffixLast(s: string, a: string)
    requires a != []
    ensures HasSuffix(s, a) ==> s != [] && s[|s| - 1] == a[|a| - 1]
  {
    if HasSuffix(s, a) {
      assert s[|s| - |a|..][|a| - 1] == s[|s| - 1];
    }
  }

  /** Two suffixes that end in different characters cannot both end `s`. */
  lemma SuffixesClash(s: string, a: string, b: string)
    requires a != [] && b != [] && a[|a| - 1] != b[|b| - 1]
    ensures HasSuffix(s, a) ==> !HasSuffix(s, b)
  {
    SuffixLast(s, a);
    SuffixLast(s, b);
  }

  /** A string that ends in `a` also ends in every suffix of `a`. */
  lemma SuffixOfSuffix(s: string, a: string, b: string)
    requires HasSuffix(s, a) && HasSuffix(a, b)
    ensures HasSuffix(s, b)
  {
    assert s[|s| - |b|..] == s[|s| - |a|..][|a| - |b|..];
  }

  /** `sub` occurs in `s` starting at position `i`. */
  predicate OccursAt(s: string, sub: string, i: int) {
    0 <= i <= |s| - |sub| && s[i..i + |sub|] == sub
  }

  /** Go's `strings.Contains`, trying each starting position in turn. */
  function Contains(s: string, sub: string): bool {
    if HasPrefix(s, sub) then true
    else if s == [] then false
    else Contains(s[1..], sub)
  }

  /** `Contains` holds exactly when `sub` occurs in `s` at some position. */
  lemma {:induction false} ContainsIffOccurs(s: string, sub: string)
    ensures Contains(s, sub) <==> exists i :: OccursAt(s, sub, i)
  {
    if HasPrefix(s, sub) {
      assert OccursAt(s, sub, 0);
    } else if s != [] {
      ContainsIffOccurs(s[1..], sub);
      assert forall i :: OccursAt(s[1..], sub, i) <==> OccursAt(s, sub, i + 1);
      assert forall i :: OccursAt(s, sub, i) ==> i == 0 || OccursAt(s[1..], sub, i - 1);
    }
  }

  /**
   * Go's `unicode.ToUpper` on one character, for the characters whose upper
   * case is an ASCII letter: 'a'..'z', U+0131 (dotless i, whose upper case is
   * 'I') and U+017F (long s, whose upper case is 'S'). Every other character
   * is returned as it is: its upper case is never an ASCII letter, so
   * comparing an upper-cased string with an ASCII word is exact.
   */
  function ToUpperChar(c: char): (u: char)
    ensures 'A' <= u <= 'Z' <==> ('A' <= c <= 'Z' || 'a' <= c <= 'z' || c == '\U{131}' || c == '\U{17F}')
  {
    if 'a' <= c <= 'z' then (c as int - 32) as char
    else if c == '\U{131}' then 'I'
    else if c == '\U{17F}' then 'S'
    else c
  }

  /** Go's `strings.ToUpper`: character by character. */
  function ToUpper(s: string): (r: string)
    ensures |r| == |s|
    ensures forall i :: 0 <= i < |s| ==> r[i] == ToUpperChar(s[i])
  {
    if s == [] then [] else ToUpper(s[..|s| - 1]) + [ToUpperChar(s[|s| - 1])]
  }

  /** A character whose upper case is the ASCII letter `u`. */
  predicate UpperIs(c: char, u: char)
    requires 'A' <= u <= 'Z'
  {
    c == u || c == (u as int + 32) as char || (u == 'I' && c == '\U{131}') || (u == 'S' && c == '\U{17F}')
  }

  /**
   * Upper-casing turns `s` into the ASCII upper-case word `w` exactly when
   * `s` has the length of `w` and each of its characters is one of the forms
   * of the corresponding letter.
   */
  lemma {:induction false} ToUpperEqualsWord(s: string, w: string)
    requires forall i :: 0 <= i < |w| ==> 'A' <= w[i] <= 'Z'
    ensures ToUpper(s) == w <==> |s| == |w| && forall i :: 0 <= i < |w| ==> UpperIs(s[i], w[i])
  {
    if |s| == |w| && forall i :: 0 <= i < |w| ==> UpperIs(s[i], w[i]) {
      forall i | 0 <= i < |w| ensures ToUpper(s)[i] == w[i] {
        assert UpperIs(s[i], w[i]);
      }
    }
    if ToUpper(s) == w {
      forall i | 0 <= i < |w| ensures UpperIs(s[i], w[i]) {
        assert ToUpperChar(s[i]) == w[i];
      }
    }
  }
}
