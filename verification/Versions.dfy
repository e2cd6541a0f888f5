/**
 dpkg version ordering (section 5.6.12 of the Debian Policy Manual) as
 agent/update.py transcribes it; the prerelease rule it adds on top is in `Releases`.

 The character loop of `_verrevcmp` is the method `Verrevcmp`; it is proved to
 return the comparison of two integer keys, lexicographic with zero padding.
 Everything else here is about that order.
 */
module Versions {
  /******* Lexicographic order of zero-padded integer keys *******/

  function Head(k: seq<int>): int {
    if k == [] then 0 else k[0]
  }

  function Tail(k: seq<int>): seq<int> {
    if k == [] then [] else k[1..]
  }

  function Lex(a: seq<int>, b: seq<int>): (r: int)
    ensures r == -1 || r == 0 || r == 1
    decreases |a| + |b|
  {
    if a == [] && b == [] then 0
    else if Head(a) < Head(b) then -1
    else if Head(a) > Head(b) then 1
    else Lex(Tail(a), Tail(b))
  }

  lemma {:induction false} LexReflexive(a: seq<int>)
    ensures Lex(a, a) == 0
  {
    if a != [] {
      LexReflexive(a[1..]);
    }
  }

  lemma {:induction false} LexAntisymmetric(a: seq<int>, b: seq<int>)
    ensures Lex(a, b) == -Lex(b, a)
    decreases |a| + |b|
  {
    if (a != [] || b != []) && Head(a) == Head(b) {
      LexAntisymmetric(Tail(a), Tail(b));
    }
  }

  /** Transitivity, and strictness of the result when either step is strict. */
  lemma {:induction false} LexTransitive(a: seq<int>, b: seq<int>, c: seq<int>)
    requires Lex(a, b) <= 0 && Lex(b, c) <= 0
    ensures Lex(a, c) <= 0
    ensures Lex(a, c) == 0 ==> Lex(a, b) == 0 && Lex(b, c) == 0
    decreases |a| + |b| + |c|
  {
    if a == [] && b == [] && c == [] {
    } else if Head(a) == Head(b) == Head(c) {
      LexTransitive(Tail(a), Tail(b), Tail(c));
    }
  }

  lemma {:induction false} LexSamePrefix(p: seq<int>, x: seq<int>, y: seq<int>)
    ensures Lex(p + x, p + y) == Lex(x, y)
  {
    if p == [] {
      assert p + x == x && p + y == y;
    } else {
      assert (p + x)[1..] == p[1..] + x && (p + y)[1..] == p[1..] + y;
      LexSamePrefix(p[1..], x, y);
    }
  }

  /******* The key of a version part *******/

  predicate IsDigit(c: char) {
    '0' <= c <= '9'
  }

  predicate IsLetter(c: char) {
    'a' <= c <= 'z' || 'A' <= c <= 'Z'
  }

  predicate AllDigits(s: string) {
    forall i :: 0 <= i < |s| ==> IsDigit(s[i])
  }

  /** `_order`: tilde below the end of the text, letters above it, the rest above letters. */
  function Order(c: char): (r: int)
    ensures !IsDigit(c) ==> r != 0
  {
    if IsDigit(c) then 0
    else if IsLetter(c) then c as int
    else if c == '~' then -1
    else c as int + 256
  }

  /** Tilde below the end of the text, the end below letters, letters below everything else, each in code order. */
  lemma OrderOfCharacters(c: char, d: char)
    requires !IsDigit(c) && !IsDigit(d) && c < '\U{0080}' && d < '\U{0080}'
    ensures Order('~') < 0 && (c != '~' ==> Order(c) > 0)
    ensures IsLetter(c) && !IsLetter(d) && d != '~' ==> Order(c) < Order(d)
    ensures c != '~' && d != '~' && IsLetter(c) == IsLetter(d) ==> (Order(c) < Order(d) <==> c < d)
  {
  }

  /** Length of the leading run of digits. */
  function Digits(s: string): (n: nat)
    ensures n <= |s| && AllDigits(s[..n])
    ensures n < |s| ==> !IsDigit(s[n])
  {
    if s != "" && IsDigit(s[0]) then
      var m := Digits(s[1..]);
      assert s[..m + 1] == [s[0]] + s[1..][..m];
      m + 1
    else 0
  }

  /** The number a run of digits writes. */
  function Value(s: string): nat
    requires AllDigits(s)
  {
    if s == "" then 0 else Value(s[..|s| - 1]) * 10 + (s[|s| - 1] as int - '0' as int)
  }

  function Num(s: string): nat {
    Value(s[..Digits(s)])
  }

  function Rest(s: string): string {
    s[Digits(s)..]
  }

  /**
   Each non-digit contributes its order, each maximal run of digits a 0 (the end
   of the text before it) and then its number. Padding with zeros stands for the
   empty text and the number 0 that follow the end of a string.
   */
  function Key(s: string): seq<int>
    decreases |s|
  {
    if s == "" then []
    else if IsDigit(s[0]) then [0, Num(s)] + Key(Rest(s))
    else [Order(s[0])] + Key(s[1..])
  }

  predicate AtNumber(s: string) {
    s == "" || IsDigit(s[0])
  }

  /** Where neither side is inside text, the numbers decide, then what follows them. */
  lemma NumberDecides(a: string, b: string)
    requires AtNumber(a) && AtNumber(b)
    ensures Lex(Key(a), Key(b)) ==
            if Num(a) < Num(b) then -1
            else if Num(a) > Num(b) then 1
            else Lex(Key(Rest(a)), Key(Rest(b)))
  {
    assert Head(Key(a)) == 0 == Head(Key(b));
    assert Head(Tail(Key(a))) == Num(a) && Tail(Tail(Key(a))) == Key(Rest(a));
    assert Head(Tail(Key(b))) == Num(b) && Tail(Tail(Key(b))) == Key(Rest(b));
  }

  /** Where at least one side is inside text, the orders decide, then what follows. */
  lemma TextDecides(a: string, b: string)
    requires !AtNumber(a) || !AtNumber(b)
    ensures var x, y := if a == "" then 0 else Order(a[0]), if b == "" then 0 else Order(b[0]);
            if x != y then Lex(Key(a), Key(b)) == (if x < y then -1 else 1)
            else a != "" && b != "" && Lex(Key(a), Key(b)) == Lex(Key(a[1..]), Key(b[1..]))
  {
    assert !AtNumber(a) ==> Key(a)[1..] == Key(a[1..]);
    assert !AtNumber(b) ==> Key(b)[1..] == Key(b[1..]);
  }

  /******* Numbers: what the digit loops rely on *******/

  function Pow10(n: nat): (r: nat)
    ensures r > 0
  {
    if n == 0 then 1 else 10 * Pow10(n - 1)
  }

  lemma {:induction false} Pow10Monotone(m: nat, n: nat)
    requires m <= n
    ensures Pow10(m) <= Pow10(n)
  {
    if m < n {
      Pow10Monotone(m, n - 1);
    }
  }

  lemma ValueAppend(s: string, c: char)
    requires AllDigits(s) && IsDigit(c)
    ensures AllDigits(s + [c]) && Value(s + [c]) == 10 * Value(s) + (c as int - '0' as int)
  {
    assert (s + [c])[..|s + [c]| - 1] == s;
  }

  lemma {:induction false} ValueBelow(s: string)
    requires AllDigits(s)
    ensures Value(s) < Pow10(|s|)
  {
    if s != "" {
      ValueBelow(s[..|s| - 1]);
    }
  }

  lemma {:induction false} ValueAbove(s: string)
    requires AllDigits(s) && s != "" && s[0] != '0'
    ensures Value(s) >= Pow10(|s| - 1)
  {
    if |s| > 1 {
      ValueAbove(s[..|s| - 1]);
    } else {
      assert s[..0] == "";
    }
  }

  lemma {:induction false} ValueLeadingZero(s: string)
    requires AllDigits(s) && s != "" && s[0] == '0'
    ensures Value(s) == Value(s[1..])
  {
    if |s| == 1 {
      assert s[..0] == "";
    } else {
      ValueLeadingZero(s[..|s| - 1]);
      assert s[..|s| - 1][1..] == s[1..][..|s| - 2];
    }
  }

  lemma LeadingZero(s: string)
    requires s != "" && s[0] == '0'
    ensures Num(s) == Num(s[1..]) && Rest(s) == Rest(s[1..])
  {
    var n := Digits(s);
    assert n == 1 + Digits(s[1..]);
    assert s[..n][1..] == s[1..][..n - 1];
    ValueLeadingZero(s[..n]);
  }

  /** Without a leading zero, more digits write a larger number. */
  lemma MoreDigitsWin(a: string, b: string)
    requires Digits(a) > Digits(b) && a[0] != '0'
    ensures Num(a) > Num(b)
  {
    hide Value, Pow10;
    ValueAbove(a[..Digits(a)]);
    ValueBelow(b[..Digits(b)]);
    Pow10Monotone(Digits(b), Digits(a) - 1);
  }

  lemma {:induction false} DigitsSplit(s: string, k: nat)
    requires k <= |s| && AllDigits(s[..k])
    ensures Digits(s) == k + Digits(s[k..])
  {
    if k == 0 {
      assert s[0..] == s;
    } else {
      assert s[..k][0] == s[0];
      assert s[1..][..k - 1] == s[..k][1..];
      DigitsSplit(s[1..], k - 1);
      assert s[1..][k - 1..] == s[k..];
    }
  }

  /******* _verrevcmp *******/

  /**
   `_verrevcmp`. The result is the comparison of the two keys, so the loop is a
   lexicographic comparison and terminates on every pair of strings.
   */
  method Verrevcmp(a: string, b: string) returns (r: int)
    ensures r == Lex(Key(a), Key(b))
  {
    hide Lex, Key;
    var i, j := 0, 0;
    assert a[0..] == a && b[0..] == b;
    while i < |a| || j < |b|
      invariant i <= |a| && j <= |b|
      invariant Lex(Key(a), Key(b)) == Lex(Key(a[i..]), Key(b[j..]))
      decreases |a| - i + |b| - j
    {
      i, j, r := CompareRound(a, b, i, j);
      if r != 0 {
        return;
      }
    }
    assert a[i..] == "" == b[j..];
    LexReflexive(Key(""));
    return 0;
  }

  lemma BehindTheNumber(s: string, i: nat)
    requires i <= |s|
    ensures i + Digits(s[i..]) <= |s| && s[i + Digits(s[i..])..] == Rest(s[i..])
    ensures AtNumber(s[i..]) && i < |s| ==> Digits(s[i..]) > 0
  {
    assert s[i..][Digits(s[i..])..] == s[i + Digits(s[i..])..];
  }

  /** One round of the outer loop of `_verrevcmp`: text, then numbers. */
  method CompareRound(a: string, b: string, start: nat, start': nat) returns (i: nat, j: nat, r: int)
    requires start <= |a| && start' <= |b| && (start < |a| || start' < |b|)
    ensures r != 0 ==> r == Lex(Key(a[start..]), Key(b[start'..]))
    ensures start <= i <= |a| && start' <= j <= |b|
    ensures r == 0 ==> i + j > start + start'
    ensures r == 0 ==> Lex(Key(a[start..]), Key(b[start'..])) == Lex(Key(a[i..]), Key(b[j..]))
  {
    hide Lex, Key, Value, Digits, Num, Rest, AtNumber;
    i, j, r := CompareText(a, b, start, start');
    if r != 0 {
      return;
    }
    NumberDecides(a[i..], b[j..]);
    BehindTheNumber(a, i);
    BehindTheNumber(b, j);
    i, j, r := CompareNumbers(a, b, i, j);
  }

  /** The non-digit loop of `_verrevcmp`: to the next number of both, or to the verdict. */
  method CompareText(a: string, b: string, start: nat, start': nat) returns (i: nat, j: nat, r: int)
    requires start <= |a| && start' <= |b|
    ensures r != 0 ==> r == Lex(Key(a[start..]), Key(b[start'..]))
    ensures start <= i <= |a| && start' <= j <= |b|
    ensures r == 0 ==> AtNumber(a[i..]) && AtNumber(b[j..])
    ensures r == 0 ==> Lex(Key(a[start..]), Key(b[start'..])) == Lex(Key(a[i..]), Key(b[j..]))
  {
    hide Lex, Key;
    i, j := start, start';
    while (i < |a| && !IsDigit(a[i])) || (j < |b| && !IsDigit(b[j]))
      invariant start <= i <= |a| && start' <= j <= |b|
      invariant Lex(Key(a[start..]), Key(b[start'..])) == Lex(Key(a[i..]), Key(b[j..]))
      decreases |a| - i
    {
      TextDecides(a[i..], b[j..]);
      var ac := if i < |a| then Order(a[i]) else 0;
      var bc := if j < |b| then Order(b[j]) else 0;
      if ac != bc {
        return i, j, if ac < bc then -1 else 1;
      }
      assert a[i..][1..] == a[i + 1..] && b[j..][1..] == b[j + 1..];
      i, j := i + 1, j + 1;
    }
    return i, j, 0;
  }

  /** The three digit loops of `_verrevcmp`, from where both texts are at a number. */
  method CompareNumbers(a: string, b: string, start: nat, start': nat) returns (i: nat, j: nat, r: int)
    requires start <= |a| && start' <= |b|
    ensures r == Sign(Num(a[start..]) - Num(b[start'..]))
    ensures start <= i <= |a| && start' <= j <= |b|
    ensures r == 0 ==> i == start + Digits(a[start..]) && j == start' + Digits(b[start'..])
  {
    hide Value, Digits, Num;
    i := SkipZeros(a, start);
    j := SkipZeros(b, start');
    var k, firstDiff := CommonDigits(a[i..], b[j..]);
    i, j := i + k, j + k;
    if i < |a| && IsDigit(a[i]) {
      r := 1;
    } else if j < |b| && IsDigit(b[j]) {
      r := -1;
    } else {
      r := Sign(firstDiff);
    }
  }

  function Sign(x: int): int {
    if x < 0 then -1 else if x > 0 then 1 else 0
  }

  method SkipZeros(s: string, start: nat) returns (i: nat)
    requires start <= |s|
    ensures start <= i <= |s| && (i < |s| ==> s[i] != '0')
    ensures Num(s[start..]) == Num(s[i..])
    ensures start + Digits(s[start..]) == i + Digits(s[i..])
  {
    i := start;
    while i < |s| && s[i] == '0'
      invariant start <= i <= |s|
      invariant Num(s[start..]) == Num(s[i..])
      invariant start + Digits(s[start..]) == i + Digits(s[i..])
    {
      LeadingZero(s[i..]);
      assert s[i..][1..] == s[i + 1..];
      i := i + 1;
    }
  }

  /** Walk two numbers without leading zeros in step: the longer is the larger, else the first difference says. */
  method CommonDigits(s: string, t: string) returns (k: nat, firstDiff: int)
    requires (s != "" ==> s[0] != '0') && (t != "" ==> t[0] != '0')
    ensures k <= |s| && k <= |t|
    ensures k < |s| && IsDigit(s[k]) ==> Num(s) > Num(t)
    ensures k < |t| && IsDigit(t[k]) ==> Num(s) < Num(t)
    ensures !(k < |s| && IsDigit(s[k])) && !(k < |t| && IsDigit(t[k])) ==>
              k == Digits(s) == Digits(t) && Sign(firstDiff) == Sign(Num(s) - Num(t))
  {
    hide Digits, Value;
    assert s[..0] == t[..0];
    k, firstDiff := 0, 0;
    while k < |s| && k < |t| && IsDigit(s[k]) && IsDigit(t[k])
      invariant k <= |s| && k <= |t|
      invariant AllDigits(s[..k]) && AllDigits(t[..k])
      invariant Sign(firstDiff) == Sign(Value(s[..k]) - Value(t[..k]))
    {
      if firstDiff == 0 {
        firstDiff := s[k] as int - t[k] as int;
      }
      assert s[..k + 1] == s[..k] + [s[k]] && t[..k + 1] == t[..k] + [t[k]];
      ValueAppend(s[..k], s[k]);
      ValueAppend(t[..k], t[k]);
      k := k + 1;
    }
    DigitsSplit(s, k);
    DigitsSplit(t, k);
    if k < |s| && IsDigit(s[k]) {
      MoreDigitsWin(s, t);
    } else if k < |t| && IsDigit(t[k]) {
      MoreDigitsWin(t, s);
    }
  }
}
