/**
 * The Python string built-ins the core relies on, restricted to what the core uses:
 * `str.replace`, `str.split` on one character, `str.strip()`, `sep.join`,
 * `str.capitalize` (ASCII letters only), `int()` on a string and `f"{n}"` on an int.
 */
module Strings {
  import opened Wrappers

  /** Every character of `s[lo..hi]` is whitespace. */
  predicate Blank(s: string, lo: nat, hi: nat) {
    lo <= hi <= |s| && forall k :: lo <= k < hi ==> IsSpace(s[k])
  }

  /** Python's `str.isspace` on one character, for the ASCII range: blank, \t, \n, \v, \f, \r and \x1c-\x1f. */
  predicate IsSpace(c: char) {
    c == ' ' || 9 <= c as int <= 13 || 28 <= c as int <= 31
  }

  /** Number of occurrences of the character `c` in `s`. */
  function Count(s: string, c: char): nat
  {
    if s == [] then 0 else (if s[0] == c then 1 else 0) + Count(s[1..], c)
  }

  /** Python's `sep.join(parts)`. */
  function JoinWith(parts: seq<string>, sep: string): string
  {
    if |parts| == 0 then ""
    else if |parts| == 1 then parts[0]
    else parts[0] + sep + JoinWith(parts[1..], sep)
  }

  /**
   * Python's `s.split(sep)` for a one-character separator: the pieces between separators,
   * one more piece than there are separators, so that joining them back gives `s`.
   */
  function Split(s: string, sep: char): (r: seq<string>)
    ensures |r| == Count(s, sep) + 1
    ensures forall k :: 0 <= k < |r| ==> sep !in r[k]
    ensures JoinWith(r, [sep]) == s
    decreases |s|
  {
    if s == [] then [""]
    else
      var rest := Split(s[1..], sep);
      if s[0] == sep then
        assert ([""] + rest)[1..] == rest;
        [""] + rest
      else
        var r := [[s[0]] + rest[0]] + rest[1..];
        assert r[1..] == rest[1..];
        assert JoinWith(r, [sep]) == [s[0]] + JoinWith(rest, [sep]);
        r
  }

  /** Splitting at the first separator, when the text before it holds none. */
  lemma {:induction false} SplitAppend(x: string, y: string, sep: char)
    requires sep !in x
    ensures Split(x + [sep] + y, sep) == [x] + Split(y, sep)
    decreases |x|
  {
    if x == [] {
      assert (x + [sep] + y)[1..] == y;
    } else {
      assert (x + [sep] + y)[1..] == x[1..] + [sep] + y;
      SplitAppend(x[1..], y, sep);
      assert [x[0]] + x[1..] == x;
    }
  }

  /** `split` undoes `join` when no part contains the separator. */
  lemma {:induction false} SplitOfJoin(parts: seq<string>, sep: char)
    requires |parts| >= 1
    requires forall k :: 0 <= k < |parts| ==> sep !in parts[k]
    ensures Split(JoinWith(parts, [sep]), sep) == parts
    decreases |parts|
  {
    if |parts| == 1 {
      var r := Split(parts[0], sep);
      assert Count(parts[0], sep) == 0 by { NoneCounted(parts[0], sep); }
      assert r == [r[0]];
    } else {
      SplitOfJoin(parts[1..], sep);
      SplitAppend(parts[0], JoinWith(parts[1..], [sep]), sep);
      assert [parts[0]] + parts[1..] == parts;
    }
  }

  lemma {:induction false} NoneCounted(s: string, c: char)
    requires c !in s
    ensures Count(s, c) == 0
  {
    if s != [] {
      assert c !in s[1..];
      NoneCounted(s[1..], c);
    }
  }

  /** Where `lstrip` stops: the first index from `i` on that is not whitespace, or `|s|`. */
  function CoreStart(s: string, i: nat): (k: nat)
    requires i <= |s|
    ensures i <= k <= |s| && Blank(s, i, k) && (k == |s| || !IsSpace(s[k]))
    decreases |s| - i
  {
    if i == |s| || !IsSpace(s[i]) then i else CoreStart(s, i + 1)
  }

  /** Where `rstrip` stops: the end of the last character before `j` that is not whitespace, or 0. */
  function CoreEnd(s: string, j: nat): (k: nat)
    requires j <= |s|
    ensures k <= j && Blank(s, k, j) && (k == 0 || !IsSpace(s[k - 1]))
    decreases j
  {
    if j == 0 || !IsSpace(s[j - 1]) then j else CoreEnd(s, j - 1)
  }

  /**
   * Python's `str.strip()` with no argument: `lstrip()` then `rstrip()`, that is, the part
   * from the first to the last character that is not whitespace, or "" when there is none.
   */
  function Strip(s: string): (r: string)
    ensures r == [] || (!IsSpace(r[0]) && !IsSpace(r[|r| - 1]))
  {
    var i := CoreStart(s, 0);
    var j := CoreEnd(s, |s|);
    if i < j then s[i..j] else []
  }

  /**
   * `strip` keeps exactly the core of `s`: whenever `s` is whitespace, then a part that
   * neither starts nor ends with whitespace, then whitespace, that part is the result.
   */
  lemma StripIsCore(s: string, i: nat, j: nat)
    requires i <= j
    requires Blank(s, 0, i) && Blank(s, j, |s|)
    requires i == j || (!IsSpace(s[i]) && !IsSpace(s[j - 1]))
    ensures Strip(s) == s[i..j]
  {
    var a := CoreStart(s, 0);
    var b := CoreEnd(s, |s|);
    if i < j {
      assert a == i && b == j;
    } else {
      assert a == |s| && b == 0;
    }
  }

  /** Python's `s.replace(pat, sub)`: every non-overlapping occurrence, scanning left to right. */
  function Replace(s: string, pat: string, sub: string): string
    requires pat != []
    decreases |s|
  {
    if |s| < |pat| then s
    else if s[..|pat|] == pat then sub + Replace(s[|pat|..], pat, sub)
    else [s[0]] + Replace(s[1..], pat, sub)
  }

  /** `pat` occurs in `s` at index `i`. */
  predicate StartsAt(s: string, pat: string, i: nat) {
    i + |pat| <= |s| && s[i..i + |pat|] == pat
  }

  /** `pat` occurs in `s`. */
  predicate Occurs(s: string, pat: string) {
    exists i: nat | i <= |s| :: StartsAt(s, pat, i)
  }

  /** A text in which the pattern does not occur is left as it is. */
  lemma {:induction false} ReplaceAbsent(s: string, pat: string, sub: string)
    requires pat != [] && !Occurs(s, pat)
    ensures Replace(s, pat, sub) == s
    decreases |s|
  {
    if |pat| <= |s| {
      assert !StartsAt(s, pat, 0);
      forall i: nat
        ensures !StartsAt(s[1..], pat, i)
      {
        assert !StartsAt(s, pat, i + 1);
        if i + |pat| <= |s[1..]| {
          assert s[1..][i..i + |pat|] == s[i + 1..i + 1 + |pat|];
        }
      }
      ReplaceAbsent(s[1..], pat, sub);
      assert [s[0]] + s[1..] == s;
    }
  }

  /** Replacing one character by one character works position by position. */
  lemma {:induction false} ReplaceChar(s: string, a: char, b: char)
    ensures |Replace(s, [a], [b])| == |s|
    ensures forall k :: 0 <= k < |s| ==> Replace(s, [a], [b])[k] == if s[k] == a then b else s[k]
    decreases |s|
  {
    if s != [] {
      ReplaceChar(s[1..], a, b);
      assert s[..1] == [s[0]];
      assert s[1..] == s[|[a]|..];
      var r := Replace(s, [a], [b]);
      assert r == [if s[0] == a then b else s[0]] + Replace(s[1..], [a], [b]);
      forall k | 1 <= k < |s|
        ensures r[k] == if s[k] == a then b else s[k]
      {
        assert s[k] == s[1..][k - 1];
      }
    }
  }

  /** A prefix that does not contain the pattern's first character is copied unchanged. */
  lemma {:induction false} ReplaceSkip(a: string, b: string, pat: string, sub: string)
    requires pat != [] && pat[0] !in a
    ensures Replace(a + b, pat, sub) == a + Replace(b, pat, sub)
    decreases |a|
  {
    if a != [] {
      var s := a + b;
      if |s| < |pat| {
        assert Replace(s, pat, sub) == s;
        assert Replace(b, pat, sub) == b;
      } else {
        assert a[0] in a;
        assert s[..|pat|][0] == a[0];
        assert s[..|pat|] != pat;
        assert s[1..] == a[1..] + b;
        assert pat[0] !in a[1..];
        ReplaceSkip(a[1..], b, pat, sub);
        assert Replace(s, pat, sub) == [a[0]] + (a[1..] + Replace(b, pat, sub));
        assert [a[0]] + a[1..] == a;
      }
    } else {
      assert a + b == b;
    }
  }

  /** An occurrence at the start is replaced, and the scan goes on after it. */
  lemma ReplaceHit(b: string, pat: string, sub: string)
    requires pat != []
    ensures Replace(pat + b, pat, sub) == sub + Replace(b, pat, sub)
  {
    assert (pat + b)[..|pat|] == pat;
    assert (pat + b)[|pat|..] == b;
  }

  /** A character where the pattern does not start is copied, and the scan goes on after it. */
  lemma ReplaceMiss(c: char, rest: string, pat: string, sub: string)
    requires pat != [] && !StartsAt([c] + rest, pat, 0)
    ensures Replace([c] + rest, pat, sub) == [c] + Replace(rest, pat, sub)
  {
    var s := [c] + rest;
    assert s[1..] == rest;
  }

  /** An ASCII letter in upper case; every other character as it is. */
  function Upper(c: char): char {
    if 'a' <= c <= 'z' then (c as int - 32) as char else c
  }

  /** An ASCII letter in lower case; every other character as it is. */
  function Lower(c: char): char {
    if 'A' <= c <= 'Z' then (c as int + 32) as char else c
  }

  /** Python's `str.lower()` on ASCII letters. */
  function LowerAll(s: string): (r: string)
    ensures |r| == |s|
    ensures forall k :: 0 <= k < |s| ==> r[k] == Lower(s[k])
  {
    if s == [] then [] else [Lower(s[0])] + LowerAll(s[1..])
  }

  /** Python's `str.capitalize()` on ASCII letters: the first character upper case, the rest lower case. */
  function Capitalize(s: string): string
  {
    if s == [] then [] else [Upper(s[0])] + LowerAll(s[1..])
  }

  /** Capitalising twice is capitalising once; the length never changes. */
  lemma CapitalizeIdempotent(s: string)
    ensures |Capitalize(s)| == |s|
    ensures Capitalize(Capitalize(s)) == Capitalize(s)
  {
    if s != [] {
      var c := Capitalize(s);
      assert c[1..] == LowerAll(s[1..]);
      assert LowerAll(c[1..]) == c[1..];
    }
  }

  predicate IsDigit(c: char) {
    '0' <= c <= '9'
  }

  function DigitChar(d: nat): char
    requires d < 10
  {
    ('0' as int + d) as char
  }

  function DigitValue(c: char): nat
    requires IsDigit(c)
  {
    c as int - '0' as int
  }

  /** The decimal digits of `n`, most significant first, without leading zeros. */
  function ShowNat(n: nat): (r: string)
    ensures |r| >= 1
    ensures forall k :: 0 <= k < |r| ==> IsDigit(r[k])
  {
    if n < 10 then [DigitChar(n)] else ShowNat(n / 10) + [DigitChar(n % 10)]
  }

  /** Python's `f"{n}"` for an int. */
  function ShowInt(n: int): string {
    if n < 0 then "-" + ShowNat(-n) else ShowNat(n)
  }

  /** The number a string of decimal digits denotes. */
  function DigitsValue(s: string): nat
    requires forall k :: 0 <= k < |s| ==> IsDigit(s[k])
  {
    if s == [] then 0 else DigitsValue(s[..|s| - 1]) * 10 + DigitValue(s[|s| - 1])
  }

  /** Position `k` of an `int()` body holds a digit, or an underscore with a digit right after it. */
  predicate DigitOrJoiner(s: string, k: nat)
    requires k < |s|
  {
    IsDigit(s[k]) || (s[k] == '_' && k + 1 < |s| && IsDigit(s[k + 1]))
  }

  /**
   * Decimal digits with single underscores between them, the digit syntax of Python's
   * `int()`: a digit first, and every underscore followed by a digit (so none is last).
   */
  predicate GroupedDigits(s: string) {
    |s| > 0 && IsDigit(s[0]) && forall k :: 0 <= k < |s| ==> DigitOrJoiner(s, k)
  }

  /** A grouped body holds only digits and underscores. */
  lemma GroupedChars(s: string)
    requires GroupedDigits(s)
    ensures forall k :: 0 <= k < |s| ==> IsDigit(s[k]) || s[k] == '_'
  {
    forall k | 0 <= k < |s| ensures IsDigit(s[k]) || s[k] == '_' {
      assert DigitOrJoiner(s, k);
    }
  }

  /** `s` without its underscores. */
  function DropUnderscores(s: string): (r: string)
    ensures (forall k :: 0 <= k < |s| ==> IsDigit(s[k]) || s[k] == '_') ==>
              forall k :: 0 <= k < |r| ==> IsDigit(r[k])
    ensures '_' !in s ==> r == s
  {
    if s == [] then [] else (if s[0] == '_' then [] else [s[0]]) + DropUnderscores(s[1..])
  }

  /**
   * Python's `int(s)` for base 10: surrounding whitespace, an optional sign, then digits
   * with single underscores between them; anything else is a ValueError (`None`).
   */
  function ParseInt(s: string): Option<int>
  {
    ParseSigned(Strip(s))
  }

  /** An `int()` text once stripped: an optional sign, then the digits. */
  function ParseSigned(t: string): Option<int>
  {
    var signed := |t| > 0 && (t[0] == '-' || t[0] == '+');
    match ParseDigits(if signed then t[1..] else t)
    case Some(v) => Some(if signed && t[0] == '-' then -(v as int) else v)
    case None => None
  }

  /** The value of an unsigned `int()` body, or `None` when it is malformed. */
  function ParseDigits(body: string): Option<nat>
  {
    if GroupedDigits(body) then GroupedChars(body); Some(DigitsValue(DropUnderscores(body))) else None
  }

  lemma {:induction false} ShowNatValue(n: nat)
    ensures DigitsValue(ShowNat(n)) == n
  {
    if n >= 10 {
      ShowNatValue(n / 10);
      var s := ShowNat(n);
      assert s[..|s| - 1] == ShowNat(n / 10);
    }
  }

  /** The decimal text of an int has no surrounding whitespace. */
  lemma ShowIntStripped(n: int)
    ensures Strip(ShowInt(n)) == ShowInt(n)
  {
    var s := ShowInt(n);
    assert !IsSpace(s[0]) && !IsSpace(s[|s| - 1]);
    StripIsCore(s, 0, |s|);
    assert s[0..|s|] == s;
  }

  /** The digits of a natural number are a valid `int()` body that denotes it. */
  lemma ShowNatParses(n: nat)
    ensures ParseDigits(ShowNat(n)) == Some(n)
  {
    var digits := ShowNat(n);
    ShowNatValue(n);
    assert '_' !in digits;
  }

  /** Reading back the decimal text of any int gives that int. */
  lemma ParseShowInt(n: int)
    ensures ParseInt(ShowInt(n)) == Some(n)
  {
    ShowIntStripped(n);
    if n < 0 {
      ParseSignedShowNegative(n);
    } else {
      ParseSignedShowNat(n);
    }
  }

  /** The digits of a natural number, with no sign, denote it. */
  lemma ParseSignedShowNat(n: nat)
    ensures ParseSigned(ShowNat(n)) == Some(n)
  {
    ShowNatParses(n);
    ParseSignedUnsigned(ShowNat(n), n);
  }

  /** A minus sign, then the digits of `-n`, denote the negative number `n`. */
  lemma ParseSignedShowNegative(n: int)
    requires n < 0
    ensures ParseSigned(ShowInt(n)) == Some(n)
  {
    ShowNatParses(-n);
    ParseSignedMinus(ShowNat(-n), -n);
  }

  /** A body without a sign is read as it is. */
  lemma ParseSignedUnsigned(body: string, m: nat)
    requires ParseDigits(body) == Some(m)
    ensures ParseSigned(body) == Some(m)
  {
    assert IsDigit(body[0]);
  }

  /** A minus sign negates the value of the body after it. */
  lemma ParseSignedMinus(body: string, m: nat)
    requires ParseDigits(body) == Some(m)
    ensures ParseSigned("-" + body) == Some(-(m as int))
  {
    SignedBody("-", body);
  }

  /** After a one-character sign, the rest of the text is the body. */
  lemma SignedBody(sign: string, body: string)
    requires |sign| == 1
    ensures (sign + body)[0] == sign[0] && (sign + body)[1..] == body
  {
  }
}
