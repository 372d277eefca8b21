/** The C++ client's command encoder and decoder. */
module ClientCodec {
  import opened Bytes
  import opened Commands

  const MAX_STRING: nat := 1024

  datatype Error =
    | EncodeEmptyCommand
    | DecodeEmptyData
    | DecodeUnknownField
    | DecodeFieldOverflow
    | DecodeOffsetOverflow
    | DecodeStringTooLong

  // ----- 64-bit size arithmetic -----

  type size_t = x: int | 0 <= x < 0x1_0000_0000_0000_0000

  /** No std::vector<uint8_t> is longer than this. */
  const MAX_VECTOR: nat := 0x7FFF_FFFF_FFFF_FFFF

  /** The sum wraps; it is refused when the wrapped result is below an operand. */
  function SafeAdd(a: size_t, b: size_t): (r: Option<size_t>)
    ensures r == if a + b < 0x1_0000_0000_0000_0000 then Some(a + b) else None
  {
    var sum := (a + b) % 0x1_0000_0000_0000_0000;
    if sum < a || sum < b then None else Some(sum)
  }

  function IsWithinDataSize(offset: size_t, length: u32, size: size_t): bool {
    var sum := SafeAdd(offset, length);
    sum.Some? && sum.value <= size
  }

  // ----- encoding -----

  /** The byte vector the encoder grows. */
  class ByteVector {
    var data: bytes

    constructor ()
      ensures data == []
    {
      data := [];
    }

    method AppendUint8(v: byte)
      modifies this
      ensures data == old(data) + [v]
    {
      data := data + [v];
    }

    method AppendUint32(v: u32)
      modifies this
      ensures data == old(data) + Be32(v)
    {
      data := data + Be32(v);
    }

    /** Reverses the word by masks and shifts, then appends its memory image. */
    method AppendDouble(w: bv64)
      modifies this
      ensures data == old(data) + Be64(w)
    {
      var swapped := SwapWord(w);
      data := data + Le64(swapped);
      SwapReversesBytes(w);
    }

    method AppendString(s: bytes)
      modifies this
      ensures data == old(data) + s
    {
      data := data + s;
    }

    // Each visit skips an absent field and appends a present one.

    method VisitByte(id: byte, v: Option<byte>)
      modifies this
      ensures data == old(data) + Pack(ByteField(id, v))
    {
      if v.Some? {
        AppendUint8(id);
        AppendUint32(1);
        AppendUint8(v.value);
        PackOne(Field(id, [v.value]));
      }
    }

    method VisitUint32(id: byte, v: Option<u32>)
      modifies this
      ensures data == old(data) + Pack(U32Field(id, v))
    {
      if v.Some? {
        AppendUint8(id);
        AppendUint32(4);
        AppendUint32(v.value);
        PackOne(Field(id, Be32(v.value)));
      }
    }

    method VisitString(id: byte, v: Option<bytes>)
      modifies this
      ensures data == old(data) + Pack(StringField(id, v))
    {
      if v.Some? {
        AppendUint8(id);
        AppendUint32(|v.value| % 0x1_0000_0000);
        AppendString(v.value);
        PackOne(Field(id, v.value));
      }
    }

    method VisitDouble(id: byte, v: Option<bv64>)
      modifies this
      ensures data == old(data) + Pack(WordField(id, v))
    {
      if v.Some? {
        AppendUint8(id);
        AppendUint32(8);
        AppendDouble(v.value);
        PackOne(Field(id, Be64(v.value)));
      }
    }
  }

  function ByteField(id: byte, v: Option<byte>): seq<Field> {
    if v.None? then [] else [Field(id, [v.value])]
  }

  function U32Field(id: byte, v: Option<u32>): seq<Field> {
    if v.None? then [] else [Field(id, Be32(v.value))]
  }

  function StringField(id: byte, v: Option<bytes>): seq<Field> {
    if v.None? then [] else [Field(id, v.value)]
  }

  function WordField(id: byte, v: Option<bv64>): seq<Field> {
    if v.None? then [] else [Field(id, Be64(v.value))]
  }

  /** The present fields, in the order the command's field tuple lists them. */
  function FieldsOf(c: Command): seq<Field> {
    ByteField(SERVICE, c.service) + U32Field(ACCOUNT_NUMBER, c.accountNumber)
    + StringField(OWNER_NAME, c.ownerName) + StringField(PASSWORD, c.password)
    + U32Field(TX_ACCOUNT_NUMBER, c.txAccountNumber) + StringField(TX_OWNER_NAME, c.txOwnerName)
    + WordField(MONETARY_VALUE, c.money) + ByteField(CURRENCY, c.currency)
    + StringField(MONITOR_UPDATES, c.monitorUpdates) + U32Field(MONITOR_SECONDS, c.monitorSeconds)
  }

  function Encode(c: Command): Result<bytes, Error> {
    var data := Pack(FieldsOf(c));
    if data == [] then Err(EncodeEmptyCommand) else Ok(data)
  }

  lemma PackOne(f: Field)
    ensures Pack([f]) == PackField(f)
  {
    assert Pack([f]) == PackField(f) + Pack([]);
  }

  /** Visits the ten fields in order, appending each present one. */
  method EncodeMessage(c: Command) returns (r: Result<bytes, Error>)
    ensures r == Encode(c)
  {
    var buffer := new ByteVector();
    buffer.VisitByte(SERVICE, c.service);
    assert buffer.data == Pack(ByteField(SERVICE, c.service));
    buffer.VisitUint32(ACCOUNT_NUMBER, c.accountNumber);
    buffer.VisitString(OWNER_NAME, c.ownerName);
    buffer.VisitString(PASSWORD, c.password);
    buffer.VisitUint32(TX_ACCOUNT_NUMBER, c.txAccountNumber);
    buffer.VisitString(TX_OWNER_NAME, c.txOwnerName);
    buffer.VisitDouble(MONETARY_VALUE, c.money);
    buffer.VisitByte(CURRENCY, c.currency);
    buffer.VisitString(MONITOR_UPDATES, c.monitorUpdates);
    buffer.VisitUint32(MONITOR_SECONDS, c.monitorSeconds);
    PackOfCommand(c);
    if buffer.data == [] {
      return Err(EncodeEmptyCommand);
    }
    return Ok(buffer.data);
  }

  lemma PackOfCommand(c: Command)
    ensures Pack(FieldsOf(c))
         == Pack(ByteField(SERVICE, c.service)) + Pack(U32Field(ACCOUNT_NUMBER, c.accountNumber))
          + Pack(StringField(OWNER_NAME, c.ownerName)) + Pack(StringField(PASSWORD, c.password))
          + Pack(U32Field(TX_ACCOUNT_NUMBER, c.txAccountNumber)) + Pack(StringField(TX_OWNER_NAME, c.txOwnerName))
          + Pack(WordField(MONETARY_VALUE, c.money)) + Pack(ByteField(CURRENCY, c.currency))
          + Pack(StringField(MONITOR_UPDATES, c.monitorUpdates)) + Pack(U32Field(MONITOR_SECONDS, c.monitorSeconds))
  {
    var a := ByteField(SERVICE, c.service);
    var b := a + U32Field(ACCOUNT_NUMBER, c.accountNumber);
    var d := b + StringField(OWNER_NAME, c.ownerName);
    var e := d + StringField(PASSWORD, c.password);
    var f := e + U32Field(TX_ACCOUNT_NUMBER, c.txAccountNumber);
    var g := f + StringField(TX_OWNER_NAME, c.txOwnerName);
    var h := g + WordField(MONETARY_VALUE, c.money);
    var i := h + ByteField(CURRENCY, c.currency);
    var j := i + StringField(MONITOR_UPDATES, c.monitorUpdates);
    PackAppend(a, U32Field(ACCOUNT_NUMBER, c.accountNumber));
    PackAppend(b, StringField(OWNER_NAME, c.ownerName));
    PackAppend(d, StringField(PASSWORD, c.password));
    PackAppend(e, U32Field(TX_ACCOUNT_NUMBER, c.txAccountNumber));
    PackAppend(f, StringField(TX_OWNER_NAME, c.txOwnerName));
    PackAppend(g, WordField(MONETARY_VALUE, c.money));
    PackAppend(h, ByteField(CURRENCY, c.currency));
    PackAppend(i, StringField(MONITOR_UPDATES, c.monitorUpdates));
    PackAppend(j, U32Field(MONITOR_SECONDS, c.monitorSeconds));
  }

  // ----- decoding -----

  /** One field's decode function: its length check, then the store into the command. */
  function SetField(c: Command, id: byte, v: bytes): Result<Command, Error> {
    if id == SERVICE then
      if |v| != 1 then Err(DecodeFieldOverflow) else Ok(c.(service := Some(v[0])))
    else if id == ACCOUNT_NUMBER then
      if |v| != 4 then Err(DecodeFieldOverflow) else Ok(c.(accountNumber := Some(LoadBe32(v))))
    else if id == OWNER_NAME then
      if |v| > MAX_STRING then Err(DecodeStringTooLong) else Ok(c.(ownerName := Some(v)))
    else if id == PASSWORD then
      if |v| > MAX_STRING then Err(DecodeStringTooLong) else Ok(c.(password := Some(v)))
    else if id == TX_ACCOUNT_NUMBER then
      if |v| != 4 then Err(DecodeFieldOverflow) else Ok(c.(txAccountNumber := Some(LoadBe32(v))))
    else if id == TX_OWNER_NAME then
      if |v| > MAX_STRING then Err(DecodeStringTooLong) else Ok(c.(txOwnerName := Some(v)))
    else if id == MONETARY_VALUE then
      if |v| != 8 then Err(DecodeFieldOverflow) else Ok(c.(money := Some(SwapWord(LoadLe64(v)))))
    else if id == CURRENCY then
      if |v| != 1 then Err(DecodeFieldOverflow) else Ok(c.(currency := Some(v[0])))
    else if id == MONITOR_UPDATES then
      if |v| > MAX_STRING then Err(DecodeStringTooLong) else Ok(c.(monitorUpdates := Some(v)))
    else if id == MONITOR_SECONDS then
      if |v| != 4 then Err(DecodeFieldOverflow) else Ok(c.(monitorSeconds := Some(LoadBe32(v))))
    else Err(DecodeUnknownField)
  }

  predicate KnownField(id: byte) {
    1 <= id <= 10
  }

  /** What is left to do on the unread bytes: the id is checked before the length. */
  function DecodeRest(rest: bytes, c: Command): Result<Command, Error>
    decreases |rest|
  {
    if |rest| < FIELD_HEADER then Ok(c)
    else if !KnownField(rest[0]) then Err(DecodeUnknownField)
    else
      var next := FIELD_HEADER + LengthAt(rest);
      if next > |rest| then Err(DecodeFieldOverflow)
      else
        var stored := SetField(c, rest[0], rest[FIELD_HEADER..next]);
        if stored.Err? then stored else DecodeRest(rest[next..], stored.value)
  }

  function Decode(data: bytes): Result<Command, Error> {
    if data == [] then Err(DecodeEmptyData) else DecodeRest(data, EMPTY)
  }

  method DecodeMessage(data: bytes) returns (r: Result<Command, Error>)
    requires |data| < 0x1_0000_0000_0000_0000
    ensures |data| <= MAX_VECTOR ==> r == Decode(data)
  {
    hide SetField, LoadBe32;
    if data == [] {
      return Err(DecodeEmptyData);
    }
    var cmd := EMPTY;
    var offset: size_t := 0;
    while true
      invariant offset <= |data|
      invariant |data| <= MAX_VECTOR ==> DecodeRest(data[offset..], cmd) == Decode(data)
      decreases |data| - offset
    {
      ghost var start := offset;
      var sum1 := SafeAdd(offset, 1);
      if sum1.None? {
        return Err(DecodeOffsetOverflow);
      }
      var sum2 := SafeAdd(sum1.value, 4);
      if sum2.None? {
        return Err(DecodeOffsetOverflow);
      }
      if sum2.value > |data| {
        break;
      }
      var id := data[offset];
      if !KnownField(id) {
        return Err(DecodeUnknownField);
      }
      offset := sum1.value;
      SliceOfRest(data, start, 1, FIELD_HEADER);
      var length := LoadBe32(data[offset..offset + 4]);
      offset := sum2.value;
      if !IsWithinDataSize(offset, length, |data|) {
        return Err(DecodeFieldOverflow);
      }
      SliceOfRest(data, start, FIELD_HEADER, FIELD_HEADER + length);
      var stored := SetField(cmd, id, data[offset..offset + length]);
      if stored.Err? {
        return stored;
      }
      cmd := stored.value;
      var next := SafeAdd(offset, length);
      if next.None? {
        return Err(DecodeOffsetOverflow);
      }
      offset := next.value;
    }
    return Ok(cmd);
  }
}
