/** The exact text each signature is over: a line naming the purpose and its version, then the
    fields, one a line; a field that could hold a newline is refused. */
module SignedEncoding {
  import opened Wrappers
  import opened Decimal

  const ATTESTATION_DOMAIN := "zgrove-worker-attest"
  const BINDING_DOMAIN := "zgrove-solana-binding"
  const VERSION := "v1"
  const ATTESTATION_FIELD_MAX := 256
  const BINDING_FIELD_MAX := 128

  /** The time is any number at all, taken by its spelling: that is what is signed. */
  datatype Attestation = Attestation(nonce: string, accountId: string, publicKey: string, issuedAt: NumberText)

  datatype SolanaBinding =
    SolanaBinding(nonce: string, accountId: string, solanaAddress: string, issuedAt: NumberText)

  datatype EncodingError = UnsafeField(field: string)

  predicate IsSafeChar(c: char) {
    'A' <= c <= 'Z' || 'a' <= c <= 'z' || '0' <= c <= '9' || c == '.' || c == '_' || c == ':' || c == '-'
  }

  predicate IsSafe(field: string, max: nat) {
    1 <= |field| <= max && forall i :: 0 <= i < |field| ==> IsSafeChar(field[i])
  }

  function Join(fields: seq<string>): string
    requires fields != []
  {
    if |fields| == 1 then fields[0] else fields[0] + "\n" + Join(fields[1..])
  }

  function AttestationFields(a: Attestation): seq<string> {
    [ATTESTATION_DOMAIN, VERSION, a.nonce, a.accountId, a.publicKey, a.issuedAt]
  }

  function BindingFields(b: SolanaBinding): seq<string> {
    [BINDING_DOMAIN, VERSION, b.nonce, b.accountId, b.solanaAddress, b.issuedAt]
  }

  function FirstUnsafe(fields: seq<string>, max: nat): Option<string> {
    if fields == [] then None
    else if !IsSafe(fields[0], max) then Some(fields[0])
    else FirstUnsafe(fields[1..], max)
  }

  function EncodeFields(fields: seq<string>, max: nat): Result<string, EncodingError>
    requires fields != []
  {
    var refused := FirstUnsafe(fields, max);
    if refused.Some? then Err(UnsafeField(refused.value)) else Ok(Join(fields))
  }

  function EncodeAttestation(a: Attestation): Result<string, EncodingError> {
    EncodeFields(AttestationFields(a), ATTESTATION_FIELD_MAX)
  }

  function EncodeSolanaBinding(b: SolanaBinding): Result<string, EncodingError> {
    EncodeFields(BindingFields(b), BINDING_FIELD_MAX)
  }

  // ---- joining loses nothing ------------------------------------------------------

  ghost predicate OneLine(field: string) {
    '\n' !in field
  }

  /** The first newline ends the first field. */
  lemma FirstFieldIsUnique(a: string, x: string, b: string, y: string)
    requires OneLine(a) && OneLine(b) && a + "\n" + x == b + "\n" + y
    ensures a == b && x == y
  {
    NewlineIsNotEarlier(a, x, b, y);
    NewlineIsNotEarlier(b, y, a, x);
    var whole := a + "\n" + x;
    assert a == whole[..|a|] && b == whole[..|a|];
    assert x == whole[|a| + 1..] && y == whole[|a| + 1..];
  }

  lemma NewlineIsNotEarlier(a: string, x: string, b: string, y: string)
    requires OneLine(a) && a + "\n" + x == b + "\n" + y
    ensures |a| <= |b|
  {
    var whole := a + "\n" + x;
    assert forall k :: 0 <= k < |a| ==> whole[k] == a[k];
    assert (b + "\n" + y)[|b|] == '\n';
  }

  lemma OneFieldHasNoNewline(a: string, b: string, y: string)
    requires OneLine(a)
    ensures a != b + "\n" + y
  {
    assert (b + "\n" + y)[|b|] == '\n';
  }

  /** Two lists of one-line fields joined to one text are one list, whatever their lengths. */
  lemma {:induction false} JoinIsUnique(a: seq<string>, b: seq<string>)
    requires a != [] && b != [] && Join(a) == Join(b)
    requires forall i :: 0 <= i < |a| ==> OneLine(a[i])
    requires forall i :: 0 <= i < |b| ==> OneLine(b[i])
    ensures a == b
  {
    hide OneLine;
    if |a| == 1 && |b| == 1 {
      assert a == [a[0]] && b == [b[0]];
    } else if |a| == 1 {
      OneFieldHasNoNewline(a[0], b[0], Join(b[1..]));
      assert false;
    } else if |b| == 1 {
      OneFieldHasNoNewline(b[0], a[0], Join(a[1..]));
      assert false;
    } else {
      FirstFieldIsUnique(a[0], Join(a[1..]), b[0], Join(b[1..]));
      JoinIsUnique(a[1..], b[1..]);
      assert a == [a[0]] + a[1..] && b == [b[0]] + b[1..];
    }
  }

  lemma {:induction false} NoneUnsafe(fields: seq<string>, max: nat)
    ensures FirstUnsafe(fields, max).None? <==> forall i :: 0 <= i < |fields| ==> IsSafe(fields[i], max)
  {
    hide IsSafe;
    if fields != [] {
      NoneUnsafe(fields[1..], max);
      assert forall i :: 0 < i < |fields| ==> fields[i] == fields[1..][i - 1];
    }
  }

  lemma SafeIsOneLine(field: string, max: nat)
    requires IsSafe(field, max)
    ensures OneLine(field)
  {}

  lemma EncodedFieldsAreUnique(a: seq<string>, m: nat, b: seq<string>, n: nat)
    requires a != [] && b != [] && EncodeFields(a, m).Ok? && EncodeFields(a, m) == EncodeFields(b, n)
    ensures a == b
  {
    hide IsSafe, OneLine, Join;
    NoneUnsafe(a, m);
    NoneUnsafe(b, n);
    forall i | 0 <= i < |a|
      ensures OneLine(a[i])
    {
      SafeIsOneLine(a[i], m);
    }
    forall i | 0 <= i < |b|
      ensures OneLine(b[i])
    {
      SafeIsOneLine(b[i], n);
    }
    JoinIsUnique(a, b);
  }

  // ---- what a signature can stand for ------------------------------------------------

  /** One signed text, one attestation. */
  lemma AttestationIsUnique(a: Attestation, b: Attestation)
    requires EncodeAttestation(a).Ok? && EncodeAttestation(a) == EncodeAttestation(b)
    ensures a == b
  {
    hide EncodeFields;
    var x, y := AttestationFields(a), AttestationFields(b);
    EncodedFieldsAreUnique(x, ATTESTATION_FIELD_MAX, y, ATTESTATION_FIELD_MAX);
    assert x[2] == y[2] && x[3] == y[3] && x[4] == y[4] && x[5] == y[5];
  }

  /** One signed text, one wallet binding. */
  lemma BindingIsUnique(a: SolanaBinding, b: SolanaBinding)
    requires EncodeSolanaBinding(a).Ok? && EncodeSolanaBinding(a) == EncodeSolanaBinding(b)
    ensures a == b
  {
    hide EncodeFields;
    var x, y := BindingFields(a), BindingFields(b);
    EncodedFieldsAreUnique(x, BINDING_FIELD_MAX, y, BINDING_FIELD_MAX);
    assert x[2] == y[2] && x[3] == y[3] && x[4] == y[4] && x[5] == y[5];
  }

  /** Whoever signs a binding has not signed any attestation by it, nor the other way round. */
  lemma AttestationIsNotABinding(a: Attestation, b: SolanaBinding)
    requires EncodeAttestation(a).Ok?
    ensures EncodeAttestation(a) != EncodeSolanaBinding(b)
  {
    hide EncodeFields;
    if EncodeAttestation(a) == EncodeSolanaBinding(b) {
      EncodedFieldsAreUnique(AttestationFields(a), ATTESTATION_FIELD_MAX, BindingFields(b), BINDING_FIELD_MAX);
      DomainsDiffer(a, b);
      assert false;
    }
  }

  lemma DomainsDiffer(a: Attestation, b: SolanaBinding)
    ensures AttestationFields(a) != BindingFields(b)
  {
    assert |AttestationFields(a)[0]| == 20 && |BindingFields(b)[0]| == 21;
  }

  // ---- what can be encoded at all ------------------------------------------------------

  /** The domain and the version are always safe, so the three texts a caller brings and the
      spelling of the time decide. */
  lemma EncodableIff(a: Attestation)
    ensures EncodeAttestation(a).Ok? <==>
      IsSafe(a.nonce, 256) && IsSafe(a.accountId, 256) && IsSafe(a.publicKey, 256) && IsSafe(a.issuedAt, 256)
  {
    var f := AttestationFields(a);
    NoneUnsafe(f, ATTESTATION_FIELD_MAX);
    DomainIsSafe();
    hide IsSafe, Join, FirstUnsafe;
    assert |f| == 6 && f[0] == ATTESTATION_DOMAIN && f[1] == VERSION;
    assert f[2] == a.nonce && f[3] == a.accountId && f[4] == a.publicKey && f[5] == a.issuedAt;
  }

  lemma DomainIsSafe()
    ensures IsSafe(ATTESTATION_DOMAIN, 256) && IsSafe(VERSION, 256)
  {}

  /** The spelling of a time is safe unless it is too long or has a plus sign, as those of 10^21 and
      beyond do. */
  lemma TimeIsSafeIff(time: NumberText, max: nat)
    ensures IsSafe(time, max) <==> |time| <= max && '+' !in time
  {
    if |time| <= max && '+' !in time {
      forall i | 0 <= i < |time|
        ensures IsSafeChar(time[i])
      {
        assert IsNumberChar(time[i]);
      }
    }
  }

  /** Whole seconds a double holds exactly are always safe, under either ceiling. */
  lemma SecondsAreSafe(s: int)
    requires -MAX_SAFE <= s <= MAX_SAFE
    ensures IsNumberText(SpellInt(s)) && IsSafe(SpellInt(s), BINDING_FIELD_MAX)
  {
    var n: nat := if s < 0 then -s else s;
    WholeIsNumberText(s);
    SpellIsRead(n);
    SixteenPlaces();
    SpellLength(n, 16);
    assert forall i :: 0 <= i < |Spell(n)| ==> IsDigit(Spell(n)[i]);
  }

  lemma SixteenPlaces()
    ensures Pow10(16) == 10_000_000_000_000_000
  {
    EightPlaces();
    assert Pow10(12) == 10_000 * Pow10(8);
    assert Pow10(16) == 10_000 * Pow10(12);
  }

  /** So an attestation of such a time is encodable exactly when its three texts are safe. */
  lemma EncodableOfSecondsIff(a: Attestation, s: int)
    requires -MAX_SAFE <= s <= MAX_SAFE && a.issuedAt == SpellInt(s)
    ensures EncodeAttestation(a).Ok? <==>
      IsSafe(a.nonce, 256) && IsSafe(a.accountId, 256) && IsSafe(a.publicKey, 256)
  {
    hide IsSafe, EncodeFields;
    EncodableIff(a);
    SecondsAreSafe(s);
    SaferIsSafe(a.issuedAt, BINDING_FIELD_MAX, 256);
  }

  lemma SaferIsSafe(field: string, small: nat, large: nat)
    requires small <= large && IsSafe(field, small)
    ensures IsSafe(field, large)
  {}
}
