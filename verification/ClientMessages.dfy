/** The C++ client's message serialiser and callback codec. */
module ClientMessages {
  import opened Bytes

  const HEADER_SIZE: nat := 18
  const MIN_CALLBACK_SIZE: nat := 19

  datatype Error = HeaderTooShort | PayloadOverflow

  datatype Message = Message(kind: byte, flag: byte, requestId: u32, ip: u32, port: u16, status: u16, content: bytes)

  function HeaderBytes(m: Message): (s: bytes)
    ensures |s| == HEADER_SIZE
  {
    [m.kind, m.flag] + Be32(m.requestId) + Be32(m.ip) + Be16(m.port) + Be16(m.status)
    + Be32(|m.content| % 0x1_0000_0000)
  }

  function Serialized(m: Message): bytes {
    HeaderBytes(m) + m.content
  }

  method Serialize(m: Message) returns (data: bytes)
    ensures data == Serialized(m)
  {
    data := [];
    data := data + [m.kind];
    data := data + [m.flag];
    assert data == [m.kind, m.flag];
    data := data + Be32(m.requestId);
    data := data + Be32(m.ip);
    data := data + Be16(m.port);
    data := data + Be16(m.status);
    data := data + Be32(|m.content| % 0x1_0000_0000);
    data := data + m.content;
  }

  /** Bytes beyond the declared content are ignored. */
  function Deserialized(data: bytes): Result<Message, Error> {
    if |data| < HEADER_SIZE then Err(HeaderTooShort)
    else
      var length := LoadBe32(data[14..18]);
      if HEADER_SIZE + length > |data| then Err(PayloadOverflow)
      else Ok(Message(data[0], data[1], LoadBe32(data[2..6]), LoadBe32(data[6..10]), LoadBe16(data[10..12]),
                      LoadBe16(data[12..14]), data[HEADER_SIZE..HEADER_SIZE + length]))
  }

  method Deserialize(data: bytes) returns (r: Result<Message, Error>)
    ensures r == Deserialized(data)
  {
    if |data| < HEADER_SIZE {
      return Err(HeaderTooShort);
    }
    var offset: nat := 0;
    var kind := data[offset];
    offset := offset + 1;
    var flag := data[offset];
    offset := offset + 1;
    var requestId := LoadBe32(data[offset..offset + 4]);
    offset := offset + 4;
    var ip := LoadBe32(data[offset..offset + 4]);
    offset := offset + 4;
    var port := LoadBe16(data[offset..offset + 2]);
    offset := offset + 2;
    var status := LoadBe16(data[offset..offset + 2]);
    offset := offset + 2;
    var length: nat := LoadBe32(data[offset..offset + 4]);
    offset := offset + 4;
    if |data| < offset + length {
      return Err(PayloadOverflow);
    }
    return Ok(Message(kind, flag, requestId, ip, port, status, data[offset..offset + length]));
  }

  // ----- callbacks -----

  datatype Callback = Callback(kind: byte, service: byte, number: u32, nameLen: u32, name: bytes, currency: byte,
      money: bv64)

  function EncodedCallback(c: Callback): bytes {
    [c.kind, c.service] + Be32(c.number) + Be32(c.nameLen) + c.name + [c.currency] + Be64(c.money)
  }

  method EncodeCallback(c: Callback) returns (data: bytes)
    ensures data == EncodedCallback(c)
  {
    data := [c.kind];
    data := data + [c.service];
    assert data == [c.kind, c.service];
    data := data + Be32(c.number);
    data := data + Be32(c.nameLen);
    data := data + c.name;
    data := data + [c.currency];
    data := data + Le64(SwapWord(c.money));
    SwapReversesBytes(c.money);
  }

  /** The decoder trusts the declared name length, so the caller must pass a buffer that holds it. */
  predicate HoldsName(data: bytes) {
    |data| >= MIN_CALLBACK_SIZE ==> |data| >= MIN_CALLBACK_SIZE + LoadBe32(data[6..10])
  }

  function DecodedCallback(data: bytes): Result<Callback, Error>
    requires HoldsName(data)
  {
    if |data| < MIN_CALLBACK_SIZE then Err(PayloadOverflow)
    else
      var n := LoadBe32(data[6..10]);
      Ok(Callback(data[0], data[1], LoadBe32(data[2..6]), n, data[10..10 + n], data[10 + n],
                  LoadBe64(data[11 + n..19 + n])))
  }

  method DecodeCallback(data: bytes) returns (r: Result<Callback, Error>)
    requires HoldsName(data)
    ensures r == DecodedCallback(data)
  {
    if |data| < MIN_CALLBACK_SIZE {
      return Err(PayloadOverflow);
    }
    var offset: nat := 0;
    var kind := data[offset];
    offset := offset + 1;
    var service := data[offset];
    offset := offset + 1;
    var number := LoadBe32(data[offset..offset + 4]);
    offset := offset + 4;
    var nameLen: nat := LoadBe32(data[offset..offset + 4]);
    offset := offset + 4;
    var name := data[offset..offset + nameLen];
    offset := offset + nameLen;
    var currency := data[offset];
    offset := offset + 1;
    var money := SwapWord(LoadLe64(data[offset..offset + 8]));
    SwapOfLoad(data[offset..offset + 8]);
    return Ok(Callback(kind, service, number, nameLen, name, currency, money));
  }
}
