/** Whole numbers as decimal text: what `String(n)` and `Number(text)` do below 1e21. */
module Decimal {
  /** `Number.MAX_SAFE_INTEGER`. */
  const MAX_SAFE := 0x1F_FFFF_FFFF_FFFF

  predicate IsDigit(c: char) {
    '0' <= c <= '9'
  }

  predicate AllDigits(text: string) {
    forall i :: 0 <= i < |text| ==> IsDigit(text[i])
  }

  function DigitChar(d: nat): (c: char)
    requires d < 10
    ensures IsDigit(c)
  {
    '0' + d as char
  }

  function DigitValue(c: char): nat
    requires IsDigit(c)
  {
    c as nat - '0' as nat
  }

  function Spell(n: nat): string {
    if n < 10 then [DigitChar(n)] else Spell(n / 10) + [DigitChar(n % 10)]
  }

  function SpellInt(i: int): string {
    if i < 0 then "-" + Spell(-i) else Spell(i)
  }

  function Value(text: string): nat
    requires AllDigits(text)
  {
    if text == "" then 0 else Value(text[..|text| - 1]) * 10 + DigitValue(text[|text| - 1])
  }

  lemma {:induction false} SpellIsRead(n: nat)
    ensures Spell(n) != "" && AllDigits(Spell(n)) && Value(Spell(n)) == n
    ensures n > 0 ==> Spell(n)[0] != '0'
  {
    if n >= 10 {
      SpellIsRead(n / 10);
      assert Spell(n)[..|Spell(n)| - 1] == Spell(n / 10);
    } else {
      assert Spell(n)[..0] == "";
    }
  }

  /** Two whole numbers with one spelling are one number. */
  lemma SpellingIsUnique(a: int, b: int)
    requires SpellInt(a) == SpellInt(b)
    ensures a == b
  {
    SpellIsRead(if a < 0 then -a else a);
    SpellIsRead(if b < 0 then -b else b);
    assert SpellInt(a)[0] == '-' <==> a < 0;
    assert SpellInt(b)[0] == '-' <==> b < 0;
    if a < 0 {
      assert SpellInt(a)[1..] == Spell(-a) && SpellInt(b)[1..] == Spell(-b);
    }
  }

  /** The characters `String` spells numbers with, exponents and the two words included. */
  predicate IsNumberChar(c: char) {
    IsDigit(c) || c in "+-.eInfityNa"
  }

  predicate IsNumberText(text: string) {
    text != "" && forall i :: 0 <= i < |text| ==> IsNumberChar(text[i])
  }

  /** A number by its spelling: two that are not equal are never spelled alike. */
  type NumberText = text: string | IsNumberText(text) witness "0"

  lemma WholeIsNumberText(i: int)
    ensures IsNumberText(SpellInt(i))
  {
    var n: nat := if i < 0 then -i else i;
    SpellIsRead(n);
    assert forall k :: 0 <= k < |Spell(n)| ==> IsDigit(Spell(n)[k]);
  }

  function Zeroes(n: nat): string {
    if n == 0 then "" else Zeroes(n - 1) + ['0']
  }

  lemma {:induction false} ZeroesShape(n: nat)
    ensures |Zeroes(n)| == n && AllDigits(Zeroes(n)) && Value(Zeroes(n)) == 0
  {
    if n > 0 {
      ZeroesShape(n - 1);
      assert Zeroes(n)[..n - 1] == Zeroes(n - 1);
    }
  }

  /** Leading zeroes change nothing. */
  lemma {:induction false} ValueOfPadded(n: nat, text: string)
    requires AllDigits(text)
    ensures AllDigits(Zeroes(n) + text) && Value(Zeroes(n) + text) == Value(text)
  {
    ZeroesShape(n);
    if text == "" {
      assert Zeroes(n) + text == Zeroes(n);
    } else {
      var init := text[..|text| - 1];
      ValueOfPadded(n, init);
      assert (Zeroes(n) + text)[..|Zeroes(n) + text| - 1] == Zeroes(n) + init;
    }
  }

  function Pow10(k: nat): nat {
    if k == 0 then 1 else 10 * Pow10(k - 1)
  }

  lemma EightPlaces()
    ensures Pow10(8) == 100_000_000
  {
    assert Pow10(4) == 10_000;
  }

  lemma {:induction false} SpellLength(n: nat, k: nat)
    requires k > 0 && n < Pow10(k)
    ensures |Spell(n)| <= k
  {
    if n >= 10 {
      SpellLength(n / 10, k - 1);
    }
  }
}
