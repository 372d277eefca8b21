/** The Go server's codecs: the append-only encoder, the tag-length-value decoder, the reply
    packet, the callback packet and the request header. */
module ServerCodec {
  import opened Bytes
  import opened Commands

  const HEADER_SIZE: nat := 18
  const MSG_REPLY: byte := 1
  const MSG_CALLBACK: byte := 2

  datatype Error =
    | FieldOverflow
    | WrongWidth
    | UnknownField
    | PacketTooShort

  /** An IPv4 endpoint. */
  datatype Address = Address(ip: u32, port: u16)

  // ----- the encoder -----

  class Encoder {
    var buf: bytes

    constructor ()
      ensures buf == []
    {
      buf := [];
    }

    method PutUint8(v: byte)
      modifies this
      ensures buf == old(buf) + [v]
    {
      buf := buf + [v];
    }

    method PutUint16(v: u16)
      modifies this
      ensures buf == old(buf) + Be16(v)
    {
      buf := buf + Be16(v);
    }

    method PutUint32(v: u32)
      modifies this
      ensures buf == old(buf) + Be32(v)
    {
      buf := buf + Be32(v);
    }

    method PutFloat64(w: bv64)
      modifies this
      ensures buf == old(buf) + Be64(w)
    {
      buf := buf + Be64(w);
    }

    method PutBytes(s: bytes)
      modifies this
      ensures buf == old(buf) + s
    {
      buf := buf + s;
    }

    method PutLengthPrefixedString(s: bytes)
      modifies this
      ensures buf == old(buf) + Be32(|s| % 0x1_0000_0000) + s
    {
      PutUint32(|s| % 0x1_0000_0000);
      PutBytes(s);
    }
  }

  // ----- tag-length-value lists -----

  method EncodeTLVFields(fields: seq<Field>) returns (r: bytes)
    ensures r == Pack(fields)
  {
    hide PackField;
    var enc := new Encoder();
    assert fields[..0] == [];
    for i := 0 to |fields|
      invariant enc.buf == Pack(fields[..i])
    {
      ghost var before := enc.buf;
      enc.PutUint8(fields[i].id);
      enc.PutUint32(|fields[i].value| % 0x1_0000_0000);
      enc.PutBytes(fields[i].value);
      PackSnoc(fields[..i], fields[i], before, enc.buf);
      assert fields[..i + 1] == fields[..i] + [fields[i]];
    }
    assert fields[..|fields|] == fields;
    return enc.buf;
  }

  lemma PackSnoc(fs: seq<Field>, f: Field, before: bytes, after: bytes)
    requires before == Pack(fs) && after == before + [f.id] + Be32(|f.value| % 0x1_0000_0000) + f.value
    ensures after == Pack(fs + [f])
  {
    assert after == before + PackField(f);
    PackAppend(fs, [f]);
    assert Pack([f]) == PackField(f) + Pack([]);
  }

  /** The decoder's switch on the field id. Strings of any length are taken. */
  function SetField(c: Command, id: byte, v: bytes): Result<Command, Error> {
    match id
    case 1 => if |v| != 1 then Err(WrongWidth) else Ok(c.(service := Some(v[0])))
    case 2 => if |v| != 4 then Err(WrongWidth) else Ok(c.(accountNumber := Some(LoadBe32(v))))
    case 3 => Ok(c.(ownerName := Some(v)))
    case 4 => Ok(c.(password := Some(v)))
    case 5 => if |v| != 4 then Err(WrongWidth) else Ok(c.(txAccountNumber := Some(LoadBe32(v))))
    case 6 => Ok(c.(txOwnerName := Some(v)))
    case 7 => if |v| != 8 then Err(WrongWidth) else Ok(c.(money := Some(LoadBe64(v))))
    case 8 => if |v| != 1 then Err(WrongWidth) else Ok(c.(currency := Some(v[0])))
    case 9 => Ok(c.(monitorUpdates := Some(v)))
    case 10 => if |v| != 4 then Err(WrongWidth) else Ok(c.(monitorSeconds := Some(LoadBe32(v))))
    case _ => Err(UnknownField)
  }

  /** What is left to do on the unread bytes: the length is checked before the id. */
  function DecodeRest(rest: bytes, c: Command): Result<Command, Error>
    decreases |rest|
  {
    if |rest| < FIELD_HEADER then Ok(c)
    else
      var next := FIELD_HEADER + LengthAt(rest);
      if next > |rest| then Err(FieldOverflow)
      else
        var stored := SetField(c, rest[0], rest[FIELD_HEADER..next]);
        if stored.Err? then stored else DecodeRest(rest[next..], stored.value)
  }

  function Decode(payload: bytes): Result<Command, Error> {
    DecodeRest(payload, EMPTY)
  }

  method DecodeTLV(payload: bytes) returns (r: Result<Command, Error>)
    ensures r == Decode(payload)
  {
    hide SetField, LoadBe32;
    var cmd := EMPTY;
    var offset := 0;
    while true
      invariant 0 <= offset <= |payload|
      invariant DecodeRest(payload[offset..], cmd) == Decode(payload)
      decreases |payload| - offset
    {
      ghost var start := offset;
      if offset + FIELD_HEADER > |payload| {
        break;
      }
      var id := payload[offset];
      offset := offset + 1;
      SliceOfRest(payload, start, 1, FIELD_HEADER);
      var length := LoadBe32(payload[offset..offset + 4]);
      offset := offset + 4;
      if offset + length > |payload| {
        return Err(FieldOverflow);
      }
      SliceOfRest(payload, start, FIELD_HEADER, FIELD_HEADER + length);
      var stored := SetField(cmd, id, payload[offset..offset + length]);
      if stored.Err? {
        return stored;
      }
      cmd := stored.value;
      offset := offset + length;
    }
    return Ok(cmd);
  }

  // ----- replies -----

  function ReplyPacket(requestId: u32, a: Address, status: byte, content: bytes): bytes {
    [MSG_REPLY, 0] + Be32(requestId) + Be32(a.ip) + Be16(a.port) + Be16(status)
    + Be32(|content| % 0x1_0000_0000) + content
  }

  method BuildReply(requestId: u32, a: Address, status: byte, content: bytes) returns (r: bytes)
    ensures r == ReplyPacket(requestId, a, status, content)
  {
    var enc := new Encoder();
    enc.PutUint8(MSG_REPLY);
    enc.PutUint8(0);
    assert enc.buf == [MSG_REPLY, 0];
    enc.PutUint32(requestId);
    enc.PutUint32(a.ip);
    enc.PutUint16(a.port);
    enc.PutUint16(status);
    enc.PutUint32(|content| % 0x1_0000_0000);
    if |content| > 0 {
      enc.PutBytes(content);
    }
    return enc.buf;
  }

  // ----- callbacks -----

  datatype CallbackUpdate = CallbackUpdate(service: byte, number: u32, holder: bytes, currency: byte, balance: bv64)

  function CallbackPacket(u: CallbackUpdate): bytes {
    [MSG_CALLBACK, u.service] + Be32(u.number) + Be32(|u.holder| % 0x1_0000_0000) + u.holder
    + [u.currency] + Be64(u.balance)
  }

  method MarshalCallbackUpdate(u: CallbackUpdate) returns (r: bytes)
    ensures r == CallbackPacket(u)
  {
    var enc := new Encoder();
    enc.PutUint8(MSG_CALLBACK);
    enc.PutUint8(u.service);
    assert enc.buf == [MSG_CALLBACK, u.service];
    enc.PutUint32(u.number);
    enc.PutLengthPrefixedString(u.holder);
    enc.PutUint8(u.currency);
    enc.PutFloat64(u.balance);
    return enc.buf;
  }

  // ----- request headers -----

  datatype Header = Header(kind: byte, flag: byte, requestId: u32, ip: u32, port: u16, status: u16, contentLen: u32)

  function ParseHeader(data: bytes): Result<Header, Error> {
    if |data| < HEADER_SIZE then Err(PacketTooShort)
    else Ok(Header(data[0], data[1], LoadBe32(data[2..6]), LoadBe32(data[6..10]), LoadBe16(data[10..12]),
                   LoadBe16(data[12..14]), LoadBe32(data[14..18])))
  }
}
