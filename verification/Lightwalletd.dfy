/** The hand-written gRPC and protobuf reader: what lightwalletd says about a transaction. */
module Lightwalletd {
  import opened Wrappers
  import opened Text

  datatype ReadError =
    | StoppedMidNumber
    | NotATransaction
    | CutShort
    | PredatesOverwinter
    | ImplausibleInputCount
    | EmptyAnswer
    | Compressed
    | AnswerCutShort
    | GrpcStatus(status: string, message: string)

  datatype Varint = Varint(value: nat, next: nat)

  const TWO_32 := 0x1_0000_0000

  // ---- numbers -----------------------------------------------------------------

  /** Base 128, least significant group first, the top bit set on all but the last. */
  function VarintBytes(n: nat): seq<Byte> {
    if n < 128 then [n] else [n % 128 + 128] + VarintBytes(n / 128)
  }

  /** `rest & 0x7f` and `rest >>>= 7` first reduce the number to 32 bits. */
  method EncodeVarint(n: nat) returns (out: seq<Byte>)
    ensures out == VarintBytes(n % TWO_32)
  {
    hide VarintBytes;
    out := [];
    var rest: nat := n;
    var more := true;
    while more
      invariant more ==> VarintBytes(n % TWO_32) == out + VarintBytes(rest % TWO_32)
      invariant !more ==> VarintBytes(n % TWO_32) == out
      decreases if more then 1 + rest else 0
    {
      var low := rest % 128;
      VarintStep(rest);
      rest := rest % TWO_32 / 128;
      out := out + [if rest == 0 then low else low + 128];
      more := rest != 0;
    }
  }

  lemma VarintStep(rest: nat)
    ensures var left := rest % TWO_32 / 128;
            && left % TWO_32 == left && (left == 0 || left < rest)
            && VarintBytes(rest % TWO_32)
            == if left == 0 then [rest % 128] else [rest % 128 + 128] + VarintBytes(left)
  {
    LowBitsSurvive(rest);
  }

  lemma LowBitsSurvive(n: nat)
    ensures n % TWO_32 % 128 == n % 128
    ensures n % TWO_32 / 128 < TWO_32
    ensures n > 0 ==> n % TWO_32 / 128 < n
  {
    assert n == n / TWO_32 * TWO_32 + n % TWO_32;
    assert (n / TWO_32 * 0x200_0000) * 128 == n / TWO_32 * TWO_32;
  }

  function ReadVarint(buf: Bytes, at: nat): Option<Varint>
    decreases |buf| - at
  {
    if at >= |buf| then None
    else if buf[at] < 128 then Some(Varint(buf[at], at + 1))
    else
      match ReadVarint(buf, at + 1)
      case None => None
      case Some(rest) => Some(Varint(buf[at] - 128 + 128 * rest.value, rest.next))
  }

  function Pow2(k: nat): nat {
    if k == 0 then 1 else 2 * Pow2(k - 1)
  }

  /** What is left to read contributes at the place reached so far. */
  function Continued(value: nat, scale: nat, rest: Option<Varint>): Option<Varint> {
    if rest.None? then None else Some(Varint(value + rest.value.value * scale, rest.value.next))
  }

  method DecodeVarint(buf: Bytes, at: nat) returns (read: Option<Varint>)
    ensures read == ReadVarint(buf, at)
  {
    var value: nat, shift: nat, i := 0, 0, at;
    while true
      invariant i >= at
      invariant ReadVarint(buf, at) == Continued(value, Pow2(shift), ReadVarint(buf, i))
      decreases |buf| - i
    {
      if i >= |buf| {
        return None;
      }
      var b := buf[i];
      ContinueStep(buf, i, value, Pow2(shift));
      SevenMore(shift);
      i := i + 1;
      value := value + b % 128 * Pow2(shift);
      if b < 128 {
        return Some(Varint(value, i));
      }
      shift := shift + 7;
    }
  }

  lemma SevenMore(shift: nat)
    ensures Pow2(shift + 7) == 128 * Pow2(shift)
  {
    assert Pow2(shift + 2) == 4 * Pow2(shift);
    assert Pow2(shift + 4) == 4 * Pow2(shift + 2);
    assert Pow2(shift + 6) == 4 * Pow2(shift + 4);
  }

  lemma ContinueStep(buf: Bytes, i: nat, value: nat, scale: nat)
    requires i < |buf|
    ensures Continued(value, scale, ReadVarint(buf, i))
         == if buf[i] < 128 then Some(Varint(value + buf[i] % 128 * scale, i + 1))
            else Continued(value + buf[i] % 128 * scale, 128 * scale, ReadVarint(buf, i + 1))
  {
    var rest := ReadVarint(buf, i + 1);
    if buf[i] >= 128 && rest.Some? {
      assert (buf[i] - 128 + 128 * rest.value.value) * scale
          == (buf[i] - 128) * scale + rest.value.value * (128 * scale);
    }
  }

  /** These bytes stand in the buffer at this place. */
  ghost predicate At(buf: Bytes, at: nat, piece: Bytes) {
    at + |piece| <= |buf| && buf[at..at + |piece|] == piece
  }

  lemma AtParts(buf: Bytes, at: nat, a: Bytes, b: Bytes)
    requires At(buf, at, a + b)
    ensures At(buf, at, a) && At(buf, at + |a|, b)
  {
    var whole := buf[at..at + |a + b|];
    assert whole[..|a|] == a && whole[|a|..] == b;
    assert buf[at..at + |a|] == whole[..|a|];
    assert buf[at + |a|..at + |a| + |b|] == whole[|a|..];
  }

  /** A number written anywhere in a buffer is read back, and reading stops right after it. */
  lemma {:induction false} VarintIsReadBack(buf: Bytes, at: nat, n: nat)
    requires At(buf, at, VarintBytes(n))
    ensures ReadVarint(buf, at) == Some(Varint(n, at + |VarintBytes(n)|))
    decreases n
  {
    if n < 128 {
      assert buf[at] == buf[at..at + 1][0] == n;
    } else {
      AtParts(buf, at, [n % 128 + 128], VarintBytes(n / 128));
      VarintIsReadBack(buf, at + 1, n / 128);
      assert buf[at] == buf[at..at + 1][0] == n % 128 + 128;
    }
  }

  /** The writer keeps 32 bits, so what it writes is read back as the number exactly below 2^32. */
  lemma VarintRoundTripIff(buf: Bytes, at: nat, n: nat)
    requires At(buf, at, VarintBytes(n % TWO_32))
    ensures ReadVarint(buf, at).Some?
    ensures ReadVarint(buf, at).value.value == n <==> n < TWO_32
  {
    VarintIsReadBack(buf, at, n % TWO_32);
  }

  lemma {:induction false} ReadVarintAdvances(buf: Bytes, at: nat)
    ensures ReadVarint(buf, at).Some? ==> at < ReadVarint(buf, at).value.next <= |buf|
    decreases |buf| - at
  {
    if at < |buf| && buf[at] >= 128 {
      ReadVarintAdvances(buf, at + 1);
    }
  }

  // ---- messages ------------------------------------------------------------------

  datatype Field = Blob(number: int, data: Bytes) | Number(number: int, value: nat)

  function ToInt32(n: nat): int {
    var low := n % TWO_32;
    if low >= TWO_32 / 2 then low - TWO_32 else low
  }

  /** `key >> 3`: the key is cut to 32 bits and its sign bit is kept. */
  function FieldOf(key: nat): int {
    ToInt32(key) / 8
  }

  function Min(a: nat, b: nat): nat {
    if a < b then a else b
  }

  /** `subarray(from, from + length)`: both ends are clamped to the buffer. */
  function Subarray(buf: Bytes, from: nat, length: nat): Bytes {
    buf[Min(from, |buf|)..Min(from + length, |buf|)]
  }

  /** One field and where the next one starts, past the end if a length says so. */
  function ReadField(body: Bytes, at: nat): Result<(Field, nat), ReadError>
    requires at < |body|
  {
    var key := ReadVarint(body, at);
    if key.None? then Err(StoppedMidNumber)
    else if key.value.value % 8 == 2 then
      var length := ReadVarint(body, key.value.next);
      if length.None? then Err(StoppedMidNumber)
      else
        Ok((Blob(FieldOf(key.value.value), Subarray(body, length.value.next, length.value.value)),
            length.value.next + length.value.value))
    else if key.value.value % 8 == 0 then
      var value := ReadVarint(body, key.value.next);
      if value.None? then Err(StoppedMidNumber)
      else Ok((Number(FieldOf(key.value.value), value.value.value), value.value.next))
    else Err(NotATransaction)
  }

  lemma ReadFieldAdvances(body: Bytes, at: nat)
    requires at < |body|
    ensures ReadField(body, at).Ok? ==> ReadField(body, at).value.1 > at
  {
    ReadVarintAdvances(body, at);
    var key := ReadVarint(body, at);
    if key.Some? {
      ReadVarintAdvances(body, key.value.next);
    }
  }

  /** The whole message as the fields it is made of. */
  function ReadFields(body: Bytes, at: nat): Result<seq<Field>, ReadError>
    decreases |body| - at
  {
    if at >= |body| then Ok([])
    else
      var field := ReadField(body, at);
      ReadFieldAdvances(body, at);
      if field.Err? then Err(field.error)
      else
        var rest := ReadFields(body, field.value.1);
        if rest.Err? then rest else Ok([field.value.0] + rest.value)
  }

  /** `bytes data = 1`: of several, the last one counts. */
  function LastData(fields: seq<Field>, initial: Bytes): Bytes {
    if fields == [] then initial
    else LastData(fields[1..], if fields[0].Blob? && fields[0].number == 1 then fields[0].data else initial)
  }

  /** `uint64 height = 2`: of several, the last one counts. */
  function LastHeight(fields: seq<Field>, initial: nat): nat {
    if fields == [] then initial
    else LastHeight(fields[1..], if fields[0].Number? && fields[0].number == 2 then fields[0].value else initial)
  }

  datatype RawTransaction = RawTransaction(data: Bytes, height: nat)

  function Decoded(body: Bytes): Result<RawTransaction, ReadError> {
    var fields := ReadFields(body, 0);
    if fields.Err? then Err(fields.error)
    else Ok(RawTransaction(LastData(fields.value, []), LastHeight(fields.value, 0)))
  }

  /** What reading the rest of the body makes of what was found so far. */
  function Finished(fields: Result<seq<Field>, ReadError>, data: Bytes, height: nat)
    : Result<RawTransaction, ReadError>
  {
    if fields.Err? then Err(fields.error)
    else Ok(RawTransaction(LastData(fields.value, data), LastHeight(fields.value, height)))
  }

  method DecodeRawTransaction(body: Bytes) returns (decoded: Result<RawTransaction, ReadError>)
    ensures decoded == Decoded(body)
  {
    var data: Bytes, height: nat, at: nat := [], 0, 0;
    while at < |body|
      invariant Decoded(body) == Finished(ReadFields(body, at), data, height)
      decreases |body| - at
    {
      hide Decoded, ReadVarint, FieldOf, Subarray, ReadFields, Finished, LastData, LastHeight;
      ReadFieldAdvances(body, at);
      OneFieldRead(body, at, data, height);
      var key := DecodeVarint(body, at);
      if key.None? {
        return Err(StoppedMidNumber);
      }
      var field := FieldOf(key.value.value);
      if key.value.value % 8 == 2 {
        var length := DecodeVarint(body, key.value.next);
        if length.None? {
          return Err(StoppedMidNumber);
        }
        if field == 1 {
          data := Subarray(body, length.value.next, length.value.value);
        }
        at := length.value.next + length.value.value;
      } else if key.value.value % 8 == 0 {
        var value := DecodeVarint(body, key.value.next);
        if value.None? {
          return Err(StoppedMidNumber);
        }
        at := value.value.next;
        if field == 2 {
          height := value.value.value;
        }
      } else {
        return Err(NotATransaction);
      }
    }
    NothingLeftToRead(body, at, data, height);
    return Ok(RawTransaction(data, height));
  }

  /** Reading one field settles it: a data or height field replaces what was found before. */
  lemma OneFieldRead(body: Bytes, at: nat, data: Bytes, height: nat)
    requires at < |body|
    ensures var field := ReadField(body, at);
            Finished(ReadFields(body, at), data, height)
            == if field.Err? then Err(field.error)
               else Finished(ReadFields(body, field.value.1),
                             if field.value.0.Blob? && field.value.0.number == 1 then field.value.0.data else data,
                             if field.value.0.Number? && field.value.0.number == 2 then field.value.0.value else height)
  {
    hide ReadField;
    ReadFieldAdvances(body, at);
    var field := ReadField(body, at);
    if field.Ok? && ReadFields(body, field.value.1).Ok? {
      var rest := ReadFields(body, field.value.1).value;
      assert ([field.value.0] + rest)[1..] == rest;
    }
  }

  lemma NothingLeftToRead(body: Bytes, at: nat, data: Bytes, height: nat)
    requires at >= |body|
    ensures Finished(ReadFields(body, at), data, height) == Ok(RawTransaction(data, height))
  {}

  // ---- transactions ----------------------------------------------------------------

  function ByteOr0(b: Bytes, i: nat): Byte {
    if i < |b| then b[i] else 0
  }

  function CompactSize(tx: Bytes, at: nat): Result<nat, ReadError> {
    if at >= |tx| then Err(CutShort)
    else if tx[at] < 0xfd then Ok(tx[at])
    else if tx[at] == 0xfd then Ok(ByteOr0(tx, at + 1) + ByteOr0(tx, at + 2) * 256)
    else Err(ImplausibleInputCount)
  }

  function VersionOf(tx: Bytes): nat
    requires |tx| >= 4
  {
    tx[0] as nat + tx[1] as nat * 0x100 + tx[2] as nat * 0x1_0000 + tx[3] as nat % 128 * 0x100_0000
  }

  function SpendsNothingTransparent(tx: Bytes): Result<bool, ReadError> {
    if |tx| < 4 then Err(CutShort)
    else if tx[3] < 128 then Err(PredatesOverwinter)
    else
      var count := CompactSize(tx, if VersionOf(tx) >= 5 then 20 else 8);
      if count.Err? then Err(count.error) else Ok(count.value == 0)
  }

  // ---- answers ---------------------------------------------------------------------

  datatype GrpcAnswer = GrpcAnswer(status: string, message: string, body: Bytes)

  datatype TransactionFacts = TransactionFacts(present: bool, blockHeight: Option<nat>, shielded: bool)

  const ABSENT := TransactionFacts(false, None, false)

  function FrameLength(body: Bytes): nat
    requires |body| >= 5
  {
    body[1] as nat * 0x100_0000 + body[2] as nat * 0x1_0000 + body[3] as nat * 0x100 + body[4] as nat
  }

  function FactsFrom(tx: RawTransaction): Result<TransactionFacts, ReadError> {
    if tx.data == [] then Ok(ABSENT)
    else
      var shielded := SpendsNothingTransparent(tx.data);
      if shielded.Err? then Err(shielded.error)
      else Ok(TransactionFacts(true, if tx.height > 0 then Some(tx.height) else None, shielded.value))
  }

  function ReadAnswer(answer: GrpcAnswer): Result<TransactionFacts, ReadError> {
    if answer.status == "5" then Ok(ABSENT)
    else if answer.status != "0" then Err(GrpcStatus(answer.status, answer.message))
    else if |answer.body| < 5 then Err(EmptyAnswer)
    else if answer.body[0] != 0 then Err(Compressed)
    else if FrameLength(answer.body) > |answer.body| - 5 then Err(AnswerCutShort)
    else
      var tx := Decoded(answer.body[5..5 + FrameLength(answer.body)]);
      if tx.Err? then Err(tx.error) else FactsFrom(tx.value)
  }

  // ---- the reader inverts the format --------------------------------------------------

  /** A field as the protocol buffers encoding writes it. */
  function FieldBytes(field: Field): Bytes
    requires field.number >= 0
  {
    match field
    case Blob(number, data) => VarintBytes(number * 8 + 2) + VarintBytes(|data|) + data
    case Number(number, value) => VarintBytes(number * 8) + VarintBytes(value)
  }

  /** Field numbers go up to 2^29 - 1, as in the protocol. */
  const NUMBER_LIMIT := 0x2000_0000

  ghost predicate Writable(fields: seq<Field>) {
    forall i :: 0 <= i < |fields| ==> 0 <= fields[i].number < NUMBER_LIMIT
  }

  /** From 2^28 on, the key of a field reaches the sign bit and the shift drags it along. */
  function NumberRead(number: int): int
    requires 0 <= number < NUMBER_LIMIT
  {
    if number < 0x1000_0000 then number else number - NUMBER_LIMIT
  }

  function ReadAs(field: Field): Field
    requires 0 <= field.number < NUMBER_LIMIT
  {
    field.(number := NumberRead(field.number))
  }

  function AllReadAs(fields: seq<Field>): seq<Field>
    requires Writable(fields)
  {
    if fields == [] then [] else [ReadAs(fields[0])] + AllReadAs(fields[1..])
  }

  function MessageBytes(fields: seq<Field>): Bytes
    requires Writable(fields)
  {
    if fields == [] then [] else FieldBytes(fields[0]) + MessageBytes(fields[1..])
  }

  /** What `key >> 3` makes of a field number; it survives exactly when it is below 2^28. */
  lemma FieldNumberIsReadIff(number: nat, wire: nat)
    requires number < NUMBER_LIMIT && wire < 8
    ensures FieldOf(number * 8 + wire) == NumberRead(number)
    ensures FieldOf(number * 8 + wire) == number <==> number < 0x1000_0000
  {
    var key := number * 8 + wire;
    assert key % TWO_32 == key;
  }

  /** A message is read field by field as itself exactly when all its field numbers survive. */
  lemma {:induction false} ReadAsItselfIff(fields: seq<Field>)
    requires Writable(fields)
    ensures AllReadAs(fields) == fields <==> forall i :: 0 <= i < |fields| ==> fields[i].number < 0x1000_0000
  {
    if fields != [] {
      ReadAsItselfIff(fields[1..]);
      assert forall i :: 0 < i < |fields| ==> fields[i] == fields[1..][i - 1];
      assert fields == [fields[0]] + fields[1..];
      assert AllReadAs(fields)[0] == ReadAs(fields[0]) && AllReadAs(fields)[1..] == AllReadAs(fields[1..]);
    }
  }

  /** The two fields that matter are read as themselves, and no other is mistaken for them. */
  lemma {:induction false} SameLast(fields: seq<Field>, data: Bytes, height: nat)
    requires Writable(fields)
    ensures LastData(AllReadAs(fields), data) == LastData(fields, data)
    ensures LastHeight(AllReadAs(fields), height) == LastHeight(fields, height)
  {
    if fields != [] {
      assert AllReadAs(fields)[1..] == AllReadAs(fields[1..]);
      SameLast(fields[1..], if fields[0].Blob? && fields[0].number == 1 then fields[0].data else data,
               if fields[0].Number? && fields[0].number == 2 then fields[0].value else height);
    }
  }

  lemma FieldIsReadBack(body: Bytes, at: nat, field: Field)
    requires 0 <= field.number < NUMBER_LIMIT
    requires At(body, at, FieldBytes(field))
    ensures at < |body| && ReadField(body, at) == Ok((ReadAs(field), at + |FieldBytes(field)|))
  {
    hide ReadVarint, VarintBytes, FieldOf, At;
    match field {
      case Blob(number, data) => BlobIsReadBack(body, at, number, data);
      case Number(number, value) =>
        var key, digits := VarintBytes(number * 8), VarintBytes(value);
        AtParts(body, at, key, digits);
        VarintIsReadBack(body, at, number * 8);
        VarintIsReadBack(body, at + |key|, value);
        ReadVarintAdvances(body, at);
        FieldNumberIsReadIff(number, 0);
    }
  }

  lemma BlobIsReadBack(body: Bytes, at: nat, number: int, data: Bytes)
    requires 0 <= number < NUMBER_LIMIT
    requires At(body, at, FieldBytes(Blob(number, data)))
    ensures at < |body|
    ensures ReadField(body, at) == Ok((Blob(NumberRead(number), data), at + |FieldBytes(Blob(number, data))|))
  {
    hide ReadVarint, VarintBytes, FieldOf, At;
    var key, size := VarintBytes(number * 8 + 2), VarintBytes(|data|);
    AtParts(body, at, key + size, data);
    AtParts(body, at, key, size);
    VarintIsReadBack(body, at, number * 8 + 2);
    VarintIsReadBack(body, at + |key|, |data|);
    ReadVarintAdvances(body, at);
    FieldNumberIsReadIff(number, 2);
    SubarrayIsAt(body, at + |key + size|, data);
  }

  lemma SubarrayIsAt(body: Bytes, at: nat, data: Bytes)
    requires At(body, at, data)
    ensures Subarray(body, at, |data|) == data
  {}

  /** Any sequence of fields is read as that sequence, but for numbers the shift does not keep. */
  lemma {:induction false} FieldsAreReadBack(body: Bytes, at: nat, fields: seq<Field>)
    requires Writable(fields) && At(body, at, MessageBytes(fields)) && at + |MessageBytes(fields)| == |body|
    ensures ReadFields(body, at) == Ok(AllReadAs(fields))
    decreases |fields|
  {
    hide ReadField, FieldBytes, At, ReadFields, MessageBytes;
    if fields == [] {
      NothingIsLeft(body, at);
    } else {
      var next := FirstFieldStands(body, at, fields);
      FieldIsReadBack(body, at, fields[0]);
      FieldsAreReadBack(body, next, fields[1..]);
      FirstThenRest(body, at, ReadAs(fields[0]), next, AllReadAs(fields[1..]));
    }
  }

  /** Fields of the two wire types the reader knows, and then one of any other: whatever its number and
      whatever follows, the whole is refused. */
  lemma {:induction false} OtherWireIsRefused(
    body: Bytes, at: nat, fields: seq<Field>, number: nat, wire: nat, rest: Bytes)
    requires Writable(fields) && number < NUMBER_LIMIT && wire < 8 && wire != 0 && wire != 2
    requires At(body, at, MessageBytes(fields) + (VarintBytes(number * 8 + wire) + rest))
    ensures ReadFields(body, at) == Err(NotATransaction)
    decreases |fields|
  {
    hide ReadField, FieldBytes, At, ReadFields, VarintBytes;
    var key := VarintBytes(number * 8 + wire);
    if fields == [] {
      assert MessageBytes([]) + (key + rest) == key + rest;
      AtParts(body, at, key, rest);
      OtherWireStops(body, at, number, wire);
      ErrorStops(body, at);
    } else {
      var more := MessageBytes(fields[1..]) + (key + rest);
      assert MessageBytes(fields) + (key + rest) == FieldBytes(fields[0]) + more;
      AtParts(body, at, FieldBytes(fields[0]), more);
      FieldIsReadBack(body, at, fields[0]);
      var next := at + |FieldBytes(fields[0])|;
      OtherWireIsRefused(body, next, fields[1..], number, wire, rest);
      ErrorPasses(body, at, ReadAs(fields[0]), next);
    }
  }

  lemma OtherWireStops(body: Bytes, at: nat, number: nat, wire: nat)
    requires number < NUMBER_LIMIT && wire < 8 && wire != 0 && wire != 2
    requires At(body, at, VarintBytes(number * 8 + wire))
    ensures at < |body| && ReadField(body, at) == Err(NotATransaction)
  {
    hide ReadVarint, VarintBytes, FieldOf, At;
    VarintIsReadBack(body, at, number * 8 + wire);
    ReadVarintAdvances(body, at);
  }

  lemma ErrorStops(body: Bytes, at: nat)
    requires at < |body| && ReadField(body, at).Err?
    ensures ReadFields(body, at) == Err(ReadField(body, at).error)
  {
    hide ReadField;
  }

  lemma ErrorPasses(body: Bytes, at: nat, first: Field, next: nat)
    requires at < |body| && ReadField(body, at) == Ok((first, next)) && ReadFields(body, next).Err?
    ensures ReadFields(body, at) == ReadFields(body, next)
  {
    hide ReadField;
  }

  lemma NothingIsLeft(body: Bytes, at: nat)
    ensures MessageBytes([]) == []
    ensures at == |body| ==> ReadFields(body, at) == Ok([])
  {}

  lemma FirstFieldStands(body: Bytes, at: nat, fields: seq<Field>) returns (next: nat)
    requires fields != [] && Writable(fields)
    requires At(body, at, MessageBytes(fields)) && at + |MessageBytes(fields)| == |body|
    ensures next == at + |FieldBytes(fields[0])| && At(body, at, FieldBytes(fields[0]))
    ensures At(body, next, MessageBytes(fields[1..])) && next + |MessageBytes(fields[1..])| == |body|
  {
    hide FieldBytes;
    next := at + |FieldBytes(fields[0])|;
    AtParts(body, at, FieldBytes(fields[0]), MessageBytes(fields[1..]));
  }

  lemma FirstThenRest(body: Bytes, at: nat, first: Field, next: nat, rest: seq<Field>)
    requires at < |body| && ReadField(body, at) == Ok((first, next)) && ReadFields(body, next) == Ok(rest)
    ensures ReadFields(body, at) == Ok([first] + rest)
  {
    hide ReadField;
  }

  /** The five bytes gRPC puts in front of a message that is not compressed. */
  function LengthPrefix(n: nat): Bytes
    requires n < TWO_32
  {
    [0, n / 0x100_0000, n / 0x1_0000 % 0x100, n / 0x100 % 0x100, n % 0x100]
  }

  function Framed(message: Bytes): Bytes
    requires |message| < TWO_32
  {
    LengthPrefix(|message|) + message
  }

  lemma LengthIsRead(n: nat, a: nat, b: nat, c: nat, d: nat)
    requires n < TWO_32
    requires a == n / 0x100_0000 && b == n / 0x1_0000 % 0x100 && c == n / 0x100 % 0x100 && d == n % 0x100
    ensures a * 0x100_0000 + b * 0x1_0000 + c * 0x100 + d == n
  {
    var q := n / 0x100;
    var r := q / 0x100;
    assert n / 0x1_0000 == r && n / 0x100_0000 == r / 0x100;
    assert q == r * 0x100 + c && r == a * 0x100 + b;
  }

  lemma FrameIsRead(message: Bytes, more: Bytes)
    requires |message| < TWO_32
    ensures var body := Framed(message) + more;
            && |body| >= 5 && body[0] == 0 && FrameLength(body) == |message|
            && body[5..5 + |message|] == message
  {
    var n := |message|;
    LengthIsRead(n, n / 0x100_0000, n / 0x1_0000 % 0x100, n / 0x100 % 0x100, n % 0x100);
    var prefix := LengthPrefix(n);
    hide LengthPrefix;
    var body := Framed(message) + more;
    assert body[..5] == prefix;
    assert forall i :: 0 <= i < 5 ==> body[i] == prefix[i];
  }

  /** Whatever fields a transaction is sent as, in any order and repeated or not, the answer is
      read as the facts about the last data and the last height in it. */
  lemma AnswerIsRead(fields: seq<Field>, message: string, more: Bytes)
    requires Writable(fields) && |MessageBytes(fields)| < TWO_32
    ensures ReadAnswer(GrpcAnswer("0", message, Framed(MessageBytes(fields)) + more))
         == FactsFrom(RawTransaction(LastData(fields, []), LastHeight(fields, 0)))
  {
    var body := MessageBytes(fields);
    FrameIsRead(body, more);
    FieldsAreReadBack(body, 0, fields);
    SameLast(fields, [], 0);
    hide Framed, MessageBytes, FrameLength, FactsFrom, ReadFields;
  }

  /** One field of another wire type anywhere in it, fixed-width or a group, and the answer is refused. */
  lemma AnswerIsRefused(fields: seq<Field>, number: nat, wire: nat, rest: Bytes, message: string, more: Bytes)
    requires Writable(fields) && number < NUMBER_LIMIT && wire < 8 && wire != 0 && wire != 2
    requires |MessageBytes(fields) + (VarintBytes(number * 8 + wire) + rest)| < TWO_32
    ensures var body := MessageBytes(fields) + (VarintBytes(number * 8 + wire) + rest);
            ReadAnswer(GrpcAnswer("0", message, Framed(body) + more)) == Err(NotATransaction)
  {
    var body := MessageBytes(fields) + (VarintBytes(number * 8 + wire) + rest);
    FrameIsRead(body, more);
    OtherWireIsRefused(body, 0, fields, number, wire, rest);
    hide Framed, MessageBytes, VarintBytes, FrameLength, FactsFrom, ReadFields;
  }

  /** The message lightwalletd sends: no data reads as no transaction; otherwise it is there, in
      the block at its height unless that is zero, and shielded as its own bytes say. */
  lemma RawTransactionIsRead(data: Bytes, height: nat, message: string)
    requires |MessageBytes([Blob(1, data), Number(2, height)])| < TWO_32
    ensures var body := Framed(MessageBytes([Blob(1, data), Number(2, height)]));
            var facts := ReadAnswer(GrpcAnswer("0", message, body));
            var shielded := SpendsNothingTransparent(data);
            if data == [] then facts == Ok(TransactionFacts(false, None, false))
            else if shielded.Err? then facts == Err(shielded.error)
            else facts == Ok(TransactionFacts(true, if height == 0 then None else Some(height), shielded.value))
  {
    hide ReadAnswer, Framed, MessageBytes, SpendsNothingTransparent;
    var fields := [Blob(1, data), Number(2, height)];
    AnswerIsRead(fields, message, []);
    assert Framed(MessageBytes(fields)) + [] == Framed(MessageBytes(fields));
    LastOfTwo(data, height);
  }

  lemma LastOfTwo(data: Bytes, height: nat)
    ensures LastData([Blob(1, data), Number(2, height)], []) == data
    ensures LastHeight([Blob(1, data), Number(2, height)], 0) == height
  {
    var fields, second := [Blob(1, data), Number(2, height)], [Number(2, height)];
    assert fields[1..] == second && second[1..] == [];
    assert LastData(second, data) == LastData([], data);
    assert LastHeight(second, 0) == LastHeight([], height);
  }

  // ---- what "shielded" means -----------------------------------------------------------

  /** The input count as Zcash writes it, up to two bytes of it. */
  function CountBytes(n: nat): Bytes
    requires n < 0x1_0000
  {
    if n < 0xfd then [n] else [0xfd, n % 256, n / 256]
  }

  /** The first four bytes of a transaction of this version, from Overwinter on. */
  function VersionBytes(version: nat): Bytes
    requires version < 0x8000_0000
  {
    [version % 0x100, version / 0x100 % 0x100, version / 0x1_0000 % 0x100, version / 0x100_0000 + 0x80]
  }

  lemma VersionIsRead(version: nat, tx: Bytes)
    requires version < 0x8000_0000 && |tx| >= 4 && tx[..4] == VersionBytes(version)
    ensures VersionOf(tx) == version && tx[3] >= 128
  {
    LengthIsRead(version, version / 0x100_0000, version / 0x1_0000 % 0x100, version / 0x100 % 0x100,
                 version % 0x100);
    assert forall i :: 0 <= i < 4 ==> tx[i] == tx[..4][i];
  }

  /** A transaction of any version from Overwinter on, with its transparent input count written
      where that version has it: it is called shielded exactly when the count is zero. */
  lemma CountDecides(version: nat, header: Bytes, n: nat, rest: Bytes)
    requires version < 0x8000_0000 && n < 0x1_0000
    requires |header| == (if version >= 5 then 20 else 8) && header[..4] == VersionBytes(version)
    ensures SpendsNothingTransparent(header + CountBytes(n) + rest) == Ok(n == 0)
  {
    var tx := header + CountBytes(n) + rest;
    var at := |header|;
    assert tx[..4] == header[..4];
    VersionIsRead(version, tx);
    hide VersionOf, VersionBytes;
    assert tx[at] == CountBytes(n)[0];
    if n >= 0xfd {
      assert tx[at + 1] == n % 256 && tx[at + 2] == n / 256;
    }
  }
}
