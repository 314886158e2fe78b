/** Zatoshi and the decimal ZEC text the wallet is given. */
module Money {
  import opened Wrappers
  import opened Decimal
  import opened Text

  const ZAT_PER_ZEC := 100_000_000
  const ZEC_DECIMALS := 8

  datatype ParseError = NotAnAmount | TooManyDecimals | BeyondSafeRange

  /** The position of the first dot, or the length if there is none. */
  function Dot(text: string): (at: nat)
    ensures at <= |text|
    ensures at < |text| ==> text[at] == '.'
    ensures '.' !in text[..at]
  {
    if text == "" || text[0] == '.' then 0
    else
      var at := Dot(text[1..]);
      assert text[..at + 1] == [text[0]] + text[1..][..at];
      at + 1
  }

  /** `^\d+(\.\d+)?$` */
  predicate LooksLikeAmount(text: string) {
    var at := Dot(text);
    && at > 0 && AllDigits(text[..at])
    && (at < |text| ==> at + 1 < |text| && AllDigits(text[at + 1..]))
  }

  function PadEnd(fraction: string): string
    requires |fraction| <= ZEC_DECIMALS
  {
    fraction + Zeroes(ZEC_DECIMALS - |fraction|)
  }

  function PadStart(digits: string): string {
    if |digits| >= ZEC_DECIMALS then digits else Zeroes(ZEC_DECIMALS - |digits|) + digits
  }

  lemma PadEndIsDigits(fraction: string)
    requires |fraction| <= ZEC_DECIMALS && AllDigits(fraction)
    ensures AllDigits(PadEnd(fraction))
  {
    ZeroesShape(ZEC_DECIMALS - |fraction|);
  }

  function ParseZec(text: string): Result<nat, ParseError> {
    var trimmed := Trim(text);
    if !LooksLikeAmount(trimmed) then Err(NotAnAmount)
    else
      var at := Dot(trimmed);
      var whole := trimmed[..at];
      var fraction := if at < |trimmed| then trimmed[at + 1..] else "";
      if |fraction| > ZEC_DECIMALS then Err(TooManyDecimals)
      else
        PadEndIsDigits(fraction);
        var zat := Value(whole) * ZAT_PER_ZEC + Value(PadEnd(fraction));
        if zat > MAX_SAFE then Err(BeyondSafeRange) else Ok(zat)
  }

  function FormatZec(zat: int): string {
    var absolute := if zat < 0 then -zat else zat;
    (if zat < 0 then "-" else "")
    + Spell(absolute / ZAT_PER_ZEC) + "." + PadStart(Spell(absolute % ZAT_PER_ZEC))
  }

  lemma PaddedFraction(fraction: nat)
    requires fraction < ZAT_PER_ZEC
    ensures var padded := PadStart(Spell(fraction));
            |padded| == ZEC_DECIMALS && AllDigits(padded) && Value(padded) == fraction
  {
    hide Spell, Value, Pow10, Zeroes;
    SpellIsRead(fraction);
    EightPlaces();
    SpellLength(fraction, 8);
    ValueOfPadded(ZEC_DECIMALS - |Spell(fraction)|, Spell(fraction));
    ZeroesShape(ZEC_DECIMALS - |Spell(fraction)|);
  }

  lemma TrimmedAlready(text: string)
    requires text != "" && !IsSpace(text[0]) && !IsSpace(text[|text| - 1])
    ensures Trim(text) == text
  {
  }

  lemma DotIsUnique(whole: string, fraction: string)
    requires '.' !in whole
    ensures Dot(whole + "." + fraction) == |whole|
  {
    var text := whole + "." + fraction;
    assert text[|whole|] == '.';
    assert forall i :: 0 <= i < |whole| ==> text[i] == whole[i];
    assert |whole| in set i | 0 <= i < |text| && text[i] == '.';
  }

  lemma DigitsAreNot(text: string)
    requires AllDigits(text)
    ensures '.' !in text
    ensures forall i :: 0 <= i < |text| ==> !IsSpace(text[i])
  {
  }

  /** Digits, a dot and digits is an amount, and splits at the dot. */
  lemma AmountShape(whole: string, fraction: string)
    requires whole != "" && fraction != "" && AllDigits(whole) && AllDigits(fraction)
    ensures var text := whole + "." + fraction;
            && Trim(text) == text && Dot(text) == |whole| && LooksLikeAmount(text)
            && text[..|whole|] == whole && text[|whole| + 1..] == fraction
  {
    hide Dot, Trim;
    var text := whole + "." + fraction;
    DigitsAreNot(whole);
    DigitsAreNot(fraction);
    DotIsUnique(whole, fraction);
    assert text[..|whole|] == whole && text[|whole| + 1..] == fraction;
    assert text[0] == whole[0] && text[|text| - 1] == fraction[|fraction| - 1];
    TrimmedAlready(text);
  }

  lemma FullFractionIsRead(whole: string, fraction: string)
    requires whole != "" && |fraction| == ZEC_DECIMALS && AllDigits(whole) && AllDigits(fraction)
    ensures var zat := Value(whole) * ZAT_PER_ZEC + Value(fraction);
            ParseZec(whole + "." + fraction) == if zat > MAX_SAFE then Err(BeyondSafeRange) else Ok(zat)
  {
    AmountShape(whole, fraction);
    hide Dot, Trim, Value;
    assert PadEnd(fraction) == fraction;
  }

  lemma FormatSplits(zat: nat)
    ensures FormatZec(zat) == Spell(zat / ZAT_PER_ZEC) + "." + PadStart(Spell(zat % ZAT_PER_ZEC))
  {
    hide Spell, PadStart;
    assert "" + Spell(zat / ZAT_PER_ZEC) == Spell(zat / ZAT_PER_ZEC);
  }

  /** Reading back what was written gives the amount exactly when the amount is one a
      payout can hold: not negative, and within the integers a double represents. */
  lemma FormatIsReadBack(zat: int)
    ensures ParseZec(FormatZec(zat)) == Ok(zat) <==> 0 <= zat <= MAX_SAFE
  {
    hide Spell, PadStart, Value, ParseZec, FormatZec, AllDigits;
    if zat < 0 {
      NegativeIsRefused(zat);
    } else {
      var q, r := zat / ZAT_PER_ZEC, zat % ZAT_PER_ZEC;
      var whole, fraction := Spell(q), PadStart(Spell(r));
      PaddedFraction(r);
      SpellIsRead(q);
      FullFractionIsRead(whole, fraction);
      FormatSplits(zat);
      assert q * ZAT_PER_ZEC + r == zat;
    }
  }

  lemma NegativeIsRefused(zat: int)
    requires zat < 0
    ensures ParseZec(FormatZec(zat)) == Err(NotAnAmount)
  {
    var text := FormatZec(zat);
    var fraction := PadStart(Spell(-zat % ZAT_PER_ZEC));
    PaddedFraction(-zat % ZAT_PER_ZEC);
    DigitsAreNot(fraction);
    hide Spell, PadStart;
    assert text[0] == '-' && text[|text| - 1] == fraction[|fraction| - 1];
    TrimmedAlready(text);
    if Dot(text) > 0 {
      assert text[..Dot(text)][0] == '-';
    }
  }
}
