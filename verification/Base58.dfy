/** Base58 as Solana spells a public key: a number rewritten from one base to another digit by
    digit with carries, leading zeroes kept one for one. */
module Base58 {
  import opened Wrappers
  import opened Text

  const ALPHABET: string :=
    "123456789" + "ABCDEFGH" + "JKLMN" + "PQRSTUVWXYZ" + "abcdefghijk" + "mnopqrstuvwxyz"

  datatype Base58Error = EmptyText | NotBase58(character: char)

  // ---- numbers as digits, least significant first --------------------------------

  // Products and quotients go through names with laws: the proofs below never open them.

  function Times(a: nat, b: nat): nat {
    a * b
  }

  function Quotient(n: nat, base: nat): nat
    requires base > 0
  {
    n / base
  }

  function Remainder(n: nat, base: nat): nat
    requires base > 0
  {
    n % base
  }

  lemma QuotientLaws(n: nat, base: nat)
    requires base > 0
    ensures n == Remainder(n, base) + Times(base, Quotient(n, base)) && Remainder(n, base) < base
    ensures base > 1 && n > 0 ==> Quotient(n, base) < n
  {
    var q, r := n / base, n % base;
    assert n == r + base * q;
    if base > 1 && n > 0 {
      ShrinksBy(n, base, q, r);
    }
  }

  lemma ShrinksBy(n: nat, base: nat, q: nat, r: nat)
    requires base > 1 && n > 0 && n == r + base * q
    ensures q < n
  {
    assert base * q == 2 * q + (base - 2) * q;
    assert (base - 2) * q >= 0;
  }

  lemma TimesLaws(a: nat, b: nat, c: nat)
    ensures Times(a, b + c) == Times(a, b) + Times(a, c)
    ensures Times(a + b, c) == Times(a, c) + Times(b, c)
    ensures Times(Times(a, b), c) == Times(a, Times(b, c))
    ensures Times(a, b) == Times(b, a)
    ensures a > 0 && b > 0 ==> Times(a, b) > 0
    ensures Times(a, 0) == 0 == Times(0, a)
    ensures Times(1, a) == a
  {}

  ghost function Eval(digits: seq<nat>, base: nat): nat {
    if digits == [] then 0 else digits[0] + Times(base, Eval(digits[1..], base))
  }

  function Digits(n: nat, base: nat): seq<nat>
    requires base > 1
  {
    if n == 0 then []
    else
      QuotientLaws(n, base);
      [Remainder(n, base)] + Digits(Quotient(n, base), base)
  }

  /** `digits * mul + carry`, one digit at a time. */
  function MulAdd(digits: seq<nat>, mul: nat, carry: nat, base: nat): seq<nat>
    requires base > 1
  {
    if digits == [] then Digits(carry, base)
    else
      var t := carry + Times(digits[0], mul);
      [Remainder(t, base)] + MulAdd(digits[1..], mul, Quotient(t, base), base)
  }

  ghost predicate Below(digits: seq<nat>, base: nat) {
    forall i :: 0 <= i < |digits| ==> digits[i] < base
  }

  /** Digits in range, and no zero at the top. */
  ghost predicate Minimal(digits: seq<nat>, base: nat) {
    Below(digits, base) && (digits == [] || digits[|digits| - 1] != 0)
  }

  lemma {:induction false} DigitsSpell(n: nat, base: nat)
    requires base > 1
    ensures Minimal(Digits(n, base), base) && Eval(Digits(n, base), base) == n
    ensures n > 0 ==> Digits(n, base) != []
  {
    hide Quotient, Remainder, Times;
    if n > 0 {
      QuotientLaws(n, base);
      var rest := Digits(Quotient(n, base), base);
      DigitsSpell(Quotient(n, base), base);
      assert Digits(n, base)[1..] == rest;
      if rest == [] {
        TimesLaws(base, 0, 0);
      }
    }
  }

  lemma {:induction false} MulAddIsArithmetic(digits: seq<nat>, mul: nat, carry: nat, base: nat)
    requires base > 1 && mul > 0 && Minimal(digits, base)
    ensures Minimal(MulAdd(digits, mul, carry, base), base)
    ensures Eval(MulAdd(digits, mul, carry, base), base) == Times(Eval(digits, base), mul) + carry
    ensures digits != [] ==> MulAdd(digits, mul, carry, base) != []
  {
    hide Quotient, Remainder, Times;
    if digits == [] {
      DigitsSpell(carry, base);
      TimesLaws(mul, 0, 0);
    } else {
      var t := carry + Times(digits[0], mul);
      var rest := MulAdd(digits[1..], mul, Quotient(t, base), base);
      QuotientLaws(t, base);
      MulAddIsArithmetic(digits[1..], mul, Quotient(t, base), base);
      assert ([Remainder(t, base)] + rest)[1..] == rest;
      Regroup(base, Eval(digits[1..], base), mul, digits[0], carry);
      if |digits| == 1 {
        TopSurvives(digits[0], mul, carry, base);
      }
    }
  }

  lemma Regroup(base: nat, above: nat, mul: nat, digit: nat, carry: nat)
    requires base > 0
    ensures var t := carry + Times(digit, mul);
            Remainder(t, base) + Times(base, Times(above, mul) + Quotient(t, base))
            == Times(digit + Times(base, above), mul) + carry
  {
    hide Quotient, Remainder, Times;
    var t := carry + Times(digit, mul);
    QuotientLaws(t, base);
    TimesLaws(base, Times(above, mul), Quotient(t, base));
    TimesLaws(digit, Times(base, above), mul);
    TimesLaws(base, above, mul);
  }

  /** A non-zero top digit stays non-zero or spills into a new one. */
  lemma TopSurvives(digit: nat, mul: nat, carry: nat, base: nat)
    requires base > 1 && digit > 0 && mul > 0
    ensures var t := carry + Times(digit, mul); Remainder(t, base) != 0 || Digits(Quotient(t, base), base) != []
  {
    hide Quotient, Remainder, Times;
    var t := carry + Times(digit, mul);
    TimesLaws(digit, mul, 0);
    QuotientLaws(t, base);
    TimesLaws(base, 0, 0);
    DigitsSpell(Quotient(t, base), base);
  }

  /** A number has one spelling without a leading zero. */
  lemma {:induction false} MinimalIsUnique(a: seq<nat>, b: seq<nat>, base: nat)
    requires base > 1 && Minimal(a, base) && Minimal(b, base) && Eval(a, base) == Eval(b, base)
    ensures a == b
  {
    hide Times;
    MinimalIsZero(a, base);
    MinimalIsZero(b, base);
    if a != [] && b != [] {
      SameParts(a[0], Eval(a[1..], base), b[0], Eval(b[1..], base), base);
      MinimalIsUnique(a[1..], b[1..], base);
    }
  }

  lemma SameParts(d: nat, x: nat, e: nat, y: nat, base: nat)
    requires d < base && e < base && d + Times(base, x) == e + Times(base, y)
    ensures d == e && x == y
  {
    hide Times;
    NotLess(d, x, e, y, base);
    NotLess(e, y, d, x, base);
  }

  lemma NotLess(d: nat, x: nat, e: nat, y: nat, base: nat)
    requires d < base && e < base && d + Times(base, x) == e + Times(base, y)
    ensures x >= y
  {
    hide Times;
    TimesGrow(base, x + 1, y);
    TimesLaws(base, x, 1);
    TimesLaws(base, 1, 0);
    TimesLaws(1, base, 0);
  }

  lemma TimesGrow(a: nat, b: nat, c: nat)
    ensures b <= c ==> Times(a, b) <= Times(a, c)
  {}

  lemma {:induction false} MinimalIsZero(a: seq<nat>, base: nat)
    requires base > 1 && Minimal(a, base)
    ensures Eval(a, base) == 0 <==> a == []
  {
    hide Times;
    if a != [] {
      MinimalIsZero(a[1..], base);
      TimesLaws(base, Eval(a[1..], base), 0);
    }
  }

  // ---- numbers as written, most significant first ----------------------------------

  ghost function BigEval(s: seq<nat>, base: nat): nat {
    if s == [] then 0 else Times(BigEval(s[..|s| - 1], base), base) + s[|s| - 1]
  }

  function Reverse<T>(s: seq<T>): (r: seq<T>)
    ensures |r| == |s| && forall i :: 0 <= i < |s| ==> r[i] == s[|s| - 1 - i]
  {
    if s == [] then [] else Reverse(s[1..]) + [s[0]]
  }

  function Leading(s: seq<nat>): (n: nat)
    ensures n <= |s| && (forall i :: 0 <= i < n ==> s[i] == 0) && (n < |s| ==> s[n] != 0)
  {
    if s == [] || s[0] != 0 then 0 else 1 + Leading(s[1..])
  }

  function Zeros(n: nat): (z: seq<nat>)
    ensures |z| == n && forall i :: 0 <= i < n ==> z[i] == 0
  {
    seq(n, _ => 0)
  }

  /** The digits after reading all of `s`. */
  function Accumulated(s: seq<nat>, from: nat, to: nat): seq<nat>
    requires to > 1
  {
    if s == [] then [] else MulAdd(Accumulated(s[..|s| - 1], from, to), from, s[|s| - 1], to)
  }

  function Convert(s: seq<nat>, from: nat, to: nat): seq<nat>
    requires to > 1
  {
    Zeros(Leading(s)) + Reverse(Accumulated(s, from, to))
  }

  lemma {:induction false} AccumulatedIsTheNumber(s: seq<nat>, from: nat, to: nat)
    requires from > 0 && to > 1
    ensures Minimal(Accumulated(s, from, to), to)
    ensures Eval(Accumulated(s, from, to), to) == BigEval(s, from)
  {
    if s != [] {
      AccumulatedIsTheNumber(s[..|s| - 1], from, to);
      MulAddIsArithmetic(Accumulated(s[..|s| - 1], from, to), from, s[|s| - 1], to);
    }
  }

  lemma {:induction false} BigEvalOfReverse(digits: seq<nat>, base: nat)
    ensures BigEval(Reverse(digits), base) == Eval(digits, base)
  {
    if digits != [] {
      BigEvalOfReverse(digits[1..], base);
      var r := Reverse(digits);
      assert r[..|r| - 1] == Reverse(digits[1..]);
    }
  }

  lemma {:induction false} LeadingZerosWeighNothing(n: nat, s: seq<nat>, base: nat)
    ensures BigEval(Zeros(n) + s, base) == BigEval(s, base)
  {
    if s != [] {
      LeadingZerosWeighNothing(n, s[..|s| - 1], base);
      assert (Zeros(n) + s)[..|Zeros(n) + s| - 1] == Zeros(n) + s[..|s| - 1];
    } else if n > 0 {
      LeadingZerosWeighNothing(n - 1, [], base);
      assert (Zeros(n) + s)[..|Zeros(n) + s| - 1] == Zeros(n - 1) + [];
    }
  }

  /** The conversion is base conversion: the same number, as many leading zeroes, digits in range. */
  lemma ConvertKeepsTheNumber(s: seq<nat>, from: nat, to: nat)
    requires from > 0 && to > 1
    ensures BigEval(Convert(s, from, to), to) == BigEval(s, from)
    ensures Leading(Convert(s, from, to)) == Leading(s)
    ensures Below(Convert(s, from, to), to)
  {
    var digits := Accumulated(s, from, to);
    AccumulatedIsTheNumber(s, from, to);
    BigEvalOfReverse(digits, to);
    LeadingZerosWeighNothing(Leading(s), Reverse(digits), to);
    assert digits != [] ==> Reverse(digits)[0] != 0;
    LeadingAfterZeros(Leading(s), Reverse(digits));
  }

  lemma LeadingAfterZeros(n: nat, s: seq<nat>)
    requires s == [] || s[0] != 0
    ensures Leading(Zeros(n) + s) == n
  {
    var whole := Zeros(n) + s;
    assert forall i :: 0 <= i < n ==> whole[i] == 0;
    assert s != [] ==> whole[n] == s[0];
  }

  /** Converting back gives exactly what was converted. */
  lemma ConvertBack(s: seq<nat>, from: nat, to: nat)
    requires from > 1 && to > 1 && Below(s, from)
    ensures Convert(Convert(s, from, to), to, from) == s
  {
    hide Accumulated, Eval, BigEval, Leading, Minimal;
    var there := Convert(s, from, to);
    ConvertKeepsTheNumber(s, from, to);
    AccumulatedIsTheNumber(there, to, from);
    WithoutLeadingZeros(s, from);
    var rest := s[Leading(s)..];
    MinimalIsUnique(Accumulated(there, to, from), Reverse(rest), from);
    ReverseTwice(rest);
  }

  /** What follows the leading zeroes is the one spelling of the number. */
  lemma WithoutLeadingZeros(s: seq<nat>, base: nat)
    requires Below(s, base)
    ensures var rest := s[Leading(s)..];
            && s == Zeros(Leading(s)) + rest
            && Minimal(Reverse(rest), base) && Eval(Reverse(rest), base) == BigEval(s, base)
  {
    hide Eval, BigEval, Minimal, Leading;
    var rest := s[Leading(s)..];
    assert s == Zeros(Leading(s)) + rest;
    LeadingZerosWeighNothing(Leading(s), rest, base);
    ReversedIsMinimal(rest, base);
    ReverseTwice(rest);
    BigEvalOfReverse(Reverse(rest), base);
  }

  lemma ReversedIsMinimal(s: seq<nat>, base: nat)
    requires Below(s, base) && (s == [] || s[0] != 0)
    ensures Minimal(Reverse(s), base)
  {}

  lemma ReverseTwice<T>(s: seq<T>)
    ensures Reverse(Reverse(s)) == s
  {}

  // ---- characters --------------------------------------------------------------------

  function IndexIn(alphabet: string, c: char): Option<nat> {
    if alphabet == "" then None
    else if alphabet[0] == c then Some(0)
    else
      var later := IndexIn(alphabet[1..], c);
      if later.None? then None else Some(later.value + 1)
  }

  lemma {:induction false} IndexInShape(alphabet: string, c: char)
    ensures match IndexIn(alphabet, c)
            case None => c !in alphabet
            case Some(i) => i < |alphabet| && alphabet[i] == c && c !in alphabet[..i]
  {
    if alphabet != "" && alphabet[0] != c {
      IndexInShape(alphabet[1..], c);
      var later := IndexIn(alphabet[1..], c);
      assert alphabet == [alphabet[0]] + alphabet[1..];
      if later.Some? {
        assert alphabet[..later.value + 1] == [alphabet[0]] + alphabet[1..][..later.value];
      }
    }
  }

  /** The alphabet is six runs of consecutive characters, in ascending order. */
  function CodeOf(d: nat): nat {
    if d < 9 then '1' as nat + d
    else if d < 17 then 'A' as nat + d - 9
    else if d < 22 then 'J' as nat + d - 17
    else if d < 33 then 'P' as nat + d - 22
    else if d < 44 then 'a' as nat + d - 33
    else 'm' as nat + d - 44
  }

  lemma AlphabetIsSixRuns(d: nat)
    requires d < 58
    ensures |ALPHABET| == 58 && ALPHABET[d] as nat == CodeOf(d)
  {
    if d < 9 {
      assert ALPHABET[d] == "123456789"[d];
    } else if d < 17 {
      assert ALPHABET[d] == "ABCDEFGH"[d - 9];
    } else if d < 22 {
      assert ALPHABET[d] == "JKLMN"[d - 17];
    } else if d < 33 {
      assert ALPHABET[d] == "PQRSTUVWXYZ"[d - 22];
    } else if d < 44 {
      assert ALPHABET[d] == "abcdefghijk"[d - 33];
    } else {
      assert ALPHABET[d] == "mnopqrstuvwxyz"[d - 44];
    }
  }

  function CharOf(d: nat): char
    requires d < 58
  {
    AlphabetIsSixRuns(d);
    ALPHABET[d]
  }

  function DigitOf(c: char): (d: Option<nat>)
    ensures d.Some? ==> d.value < 58
  {
    IndexInShape(ALPHABET, c);
    AlphabetIsSixRuns(0);
    IndexIn(ALPHABET, c)
  }

  lemma CharsAndDigitsMatch(d: nat, c: char)
    requires d < 58
    ensures DigitOf(CharOf(d)) == Some(d)
    ensures DigitOf(c) == Some(d) ==> CharOf(d) == c
  {
    hide ALPHABET;
    AlphabetIsSixRuns(d);
    IndexInShape(ALPHABET, c);
    IndexInShape(ALPHABET, CharOf(d));
    assert ALPHABET[d] in ALPHABET;
    AlphabetIsSixRuns(DigitOf(CharOf(d)).value);
  }

  predicate IsBase58(text: string) {
    forall i :: 0 <= i < |text| ==> DigitOf(text[i]).Some?
  }

  function Values(text: string): (s: seq<nat>)
    requires IsBase58(text)
    ensures |s| == |text| && forall i :: 0 <= i < |text| ==> s[i] == DigitOf(text[i]).value
  {
    if text == "" then [] else [DigitOf(text[0]).value] + Values(text[1..])
  }

  function Spelled(s: seq<nat>): (text: string)
    requires forall i :: 0 <= i < |s| ==> s[i] < 58
    ensures |text| == |s| && forall i :: 0 <= i < |s| ==> text[i] == CharOf(s[i])
  {
    hide CharOf;
    if s == [] then "" else [CharOf(s[0])] + Spelled(s[1..])
  }

  // ---- the two codecs --------------------------------------------------------------------

  function Decode(text: string): Result<seq<nat>, Base58Error> {
    if text == "" then Err(EmptyText)
    else if !IsBase58(text) then Err(NotBase58(text[FirstBad(text)]))
    else Ok(Convert(Values(text), 58, 256))
  }

  function FirstBad(text: string): (i: nat)
    requires !IsBase58(text)
    ensures i < |text| && DigitOf(text[i]).None? && IsBase58(text[..i])
  {
    if DigitOf(text[0]).None? then 0
    else
      assert forall i :: 0 < i < |text| ==> text[i] == text[1..][i - 1];
      1 + FirstBad(text[1..])
  }

  function Encode(bytes: seq<Byte>): string {
    ConvertKeepsTheNumber(bytes, 256, 58);
    Spelled(Convert(bytes, 256, 58))
  }

  /** Both inner loops: multiply the number held so far and add the next digit. The carry stays
      below the multiplier, so no step leaves 32 bits. */
  method MultiplyAndAdd(digits: seq<nat>, mul: nat, add: nat, base: nat) returns (result: seq<nat>)
    requires base > 1 && mul > 1 && add < mul && Below(digits, base)
    ensures result == MulAdd(digits, mul, add, base)
  {
    hide Times, Quotient, Remainder, MulAdd, Digits;
    result := digits;
    var carry: nat := add;
    for i := 0 to |digits|
      invariant |result| == |digits| && result[i..] == digits[i..] && carry < mul
      invariant MulAdd(digits, mul, add, base) == result[..i] + MulAdd(digits[i..], mul, carry, base)
    {
      assert result[i] == digits[i..][0] == digits[i] && digits[i..][1..] == digits[i + 1..];
      MulAddStep(digits[i..], mul, carry, base);
      CarryStaysSmall(digits[i], carry, mul, base);
      var t := carry + Times(result[i], mul);
      ghost var before := result[..i];
      result := result[i := Remainder(t, base)];
      assert result[..i + 1] == before + [Remainder(t, base)];
      carry := Quotient(t, base);
    }
    MulAddEnd(mul, carry, base);
    assert digits[|digits|..] == [] && result[..|digits|] == result;
    while carry > 0
      invariant MulAdd(digits, mul, add, base) == result + Digits(carry, base)
      decreases carry
    {
      DigitsStep(carry, base);
      result := result + [Remainder(carry, base)];
      carry := Quotient(carry, base);
    }
    DigitsEnd(base);
  }

  lemma MulAddStep(digits: seq<nat>, mul: nat, carry: nat, base: nat)
    requires base > 1 && digits != []
    ensures var t := carry + Times(digits[0], mul);
            MulAdd(digits, mul, carry, base) == [Remainder(t, base)] + MulAdd(digits[1..], mul, Quotient(t, base), base)
  {}

  lemma MulAddEnd(mul: nat, carry: nat, base: nat)
    requires base > 1
    ensures MulAdd([], mul, carry, base) == Digits(carry, base)
  {}

  lemma DigitsStep(n: nat, base: nat)
    requires base > 1 && n > 0
    ensures Digits(n, base) == [Remainder(n, base)] + Digits(Quotient(n, base), base)
    ensures Quotient(n, base) < n
  {
    QuotientLaws(n, base);
  }

  lemma DigitsEnd(base: nat)
    requires base > 1
    ensures Digits(0, base) == []
  {}

  lemma CarryStaysSmall(digit: nat, carry: nat, mul: nat, base: nat)
    requires base > 1 && digit < base && carry < mul
    ensures carry + Times(digit, mul) < Times(base, mul)
    ensures Quotient(carry + Times(digit, mul), base) < mul
  {
    hide Times, Quotient, Remainder;
    var t := carry + Times(digit, mul);
    TimesLaws(digit, 1, mul);
    TimesLaws(1, mul, 0);
    TimesLaws(mul, digit + 1, 0);
    TimesLaws(mul, base, 0);
    TimesGrow(mul, digit + 1, base);
    assert Times(digit + 1, mul) == Times(digit, mul) + mul;
    QuotientLaws(t, base);
    TimesGrow(base, mul, Quotient(t, base));
  }

  method DecodeBase58(text: string) returns (decoded: Result<seq<nat>, Base58Error>)
    ensures decoded == Decode(text)
  {
    hide MulAdd, Minimal, Eval, BigEval, DigitOf;
    if |text| == 0 {
      return Err(EmptyText);
    }
    var bytes: seq<nat> := [];
    for i := 0 to |text|
      invariant IsBase58(text[..i]) && bytes == Accumulated(Values(text[..i]), 58, 256)
      invariant Below(bytes, 256)
    {
      var value := DigitOf(text[i]);
      if value.None? {
        FirstBadIsHere(text, i);
        return Err(NotBase58(text[i]));
      }
      assert Values(text[..i + 1])[..i] == Values(text[..i]);
      AccumulatedStep(Values(text[..i + 1]), 58, 256);
      bytes := MultiplyAndAdd(bytes, 58, value.value, 256);
    }
    assert text[..|text|] == text;
    var n := CountLeading(text, CharOf(0));
    LeadingIsCounted(text, n);
    ReverseOfZerosAfter(bytes, n);
    bytes := bytes + Zeros(n);
    return Ok(Reverse(bytes));
  }

  lemma AccumulatedStep(s: seq<nat>, from: nat, to: nat)
    requires from > 0 && to > 1 && s != []
    ensures Accumulated(s, from, to) == MulAdd(Accumulated(s[..|s| - 1], from, to), from, s[|s| - 1], to)
    ensures Below(Accumulated(s, from, to), to)
  {
    AccumulatedIsTheNumber(s, from, to);
  }

  /** How many times `c` is repeated at the start. */
  method CountLeading<T(==)>(s: seq<T>, c: T) returns (n: nat)
    ensures n <= |s| && (forall i :: 0 <= i < n ==> s[i] == c) && (n < |s| ==> s[n] != c)
  {
    n := 0;
    while n < |s| && s[n] == c
      invariant n <= |s| && forall i :: 0 <= i < n ==> s[i] == c
    {
      n := n + 1;
    }
  }

  method EncodeBase58(bytes: seq<Byte>) returns (text: string)
    ensures text == Encode(bytes)
  {
    if |bytes| == 0 {
      return "";
    }
    hide MulAdd, Minimal;
    var digits: seq<nat> := [];
    for i := 0 to |bytes|
      invariant digits == Accumulated(bytes[..i], 256, 58) && Below(digits, 58)
    {
      assert bytes[..i + 1][..i] == bytes[..i];
      AccumulatedStep(bytes[..i + 1], 256, 58);
      digits := MultiplyAndAdd(digits, 256, bytes[i], 58);
    }
    assert bytes[..|bytes|] == bytes;
    var n := CountLeading(bytes, 0);
    assert n == Leading(bytes);
    ConvertKeepsTheNumber(bytes, 256, 58);
    return Spelled(Zeros(n) + Reverse(digits));
  }

  lemma FirstBadIsHere(text: string, i: nat)
    requires i < |text| && IsBase58(text[..i]) && DigitOf(text[i]).None?
    ensures !IsBase58(text) && FirstBad(text) == i
  {
    var j := FirstBad(text);
    assert forall k :: 0 <= k < i ==> text[..i][k] == text[k];
    assert forall k :: 0 <= k < j ==> text[..j][k] == text[k];
  }

  lemma LeadingIsCounted(text: string, n: nat)
    requires IsBase58(text) && n <= |text| && (forall i :: 0 <= i < n ==> text[i] == CharOf(0))
    requires n < |text| ==> text[n] != CharOf(0)
    ensures n == Leading(Values(text))
  {
    hide DigitOf, CharOf;
    forall i | 0 <= i < |text|
      ensures text[i] == CharOf(0) <==> Values(text)[i] == 0
    {
      CharsAndDigitsMatch(0, text[i]);
    }
    LeadingIsUnique(Values(text), n);
  }

  lemma LeadingIsUnique(s: seq<nat>, n: nat)
    requires n <= |s| && (forall i :: 0 <= i < n ==> s[i] == 0) && (n < |s| ==> s[n] != 0)
    ensures n == Leading(s)
  {}

  lemma ReverseOfZerosAfter(digits: seq<nat>, n: nat)
    ensures Reverse(digits + Zeros(n)) == Zeros(n) + Reverse(digits)
  {}

  // ---- round trips -----------------------------------------------------------------------

  lemma NothingConvertsToNothing(from: nat, to: nat)
    requires to > 1
    ensures Convert([], from, to) == []
  {}

  /** Every non-empty byte string comes back, leading zeroes included. */
  lemma DecodeUndoesEncode(bytes: seq<Byte>)
    requires bytes != []
    ensures Decode(Encode(bytes)) == Ok(bytes)
  {
    var s := Convert(bytes, 256, 58);
    ConvertKeepsTheNumber(bytes, 256, 58);
    var text := Encode(bytes);
    forall i | 0 <= i < |text|
      ensures DigitOf(text[i]) == Some(s[i])
    {
      CharsAndDigitsMatch(s[i], text[i]);
    }
    assert Values(text) == s;
    ConvertBack(bytes, 256, 58);
    NothingConvertsToNothing(58, 256);
  }

  /** Text is decoded exactly when it is non-empty and all base58; then every byte is in range
      and spelling the bytes gives the same text back. */
  lemma EncodeUndoesDecode(text: string)
    ensures Decode(text).Ok? <==> text != "" && IsBase58(text)
    ensures Decode(text).Ok? ==>
      && (forall i :: 0 <= i < |Decode(text).value| ==> Decode(text).value[i] < 256)
      && Encode(Decode(text).value) == text
  {
    if Decode(text).Ok? {
      ConvertKeepsTheNumber(Values(text), 58, 256);
      ConvertBack(Values(text), 58, 256);
      var bytes: seq<Byte> := Decode(text).value;
      forall i | 0 <= i < |text|
        ensures Encode(bytes)[i] == text[i]
      {
        CharsAndDigitsMatch(Values(text)[i], text[i]);
      }
    }
  }
}
