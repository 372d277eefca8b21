/** What the two codecs promise each other. */
module WireTheorems {
  import opened Bytes
  import opened Commands
  import C = ClientCodec
  import M = ClientMessages
  import S = ServerCodec

  // ----- both decoders compute the meaning of the field list -----

  lemma LastSnoc(fs: seq<Field>, f: Field, id: byte)
    ensures Last(fs + [f], id) == if f.id == id then Some(f.value) else Last(fs, id)
  {
    assert (fs + [f])[..|fs|] == fs;
  }

  lemma MeaningSnoc(fs: seq<Field>, f: Field)
    ensures S.SetField(Meaning(fs), f.id, f.value)
         == if WellFormed(f) then Ok(Meaning(fs + [f]))
            else Err(if Width(f.id).Some? then S.WrongWidth else S.UnknownField)
  {
    LastSnoc(fs, f, SERVICE); LastSnoc(fs, f, ACCOUNT_NUMBER); LastSnoc(fs, f, OWNER_NAME);
    LastSnoc(fs, f, PASSWORD); LastSnoc(fs, f, TX_ACCOUNT_NUMBER); LastSnoc(fs, f, TX_OWNER_NAME);
    LastSnoc(fs, f, MONETARY_VALUE); LastSnoc(fs, f, CURRENCY); LastSnoc(fs, f, MONITOR_UPDATES);
    LastSnoc(fs, f, MONITOR_SECONDS);
  }

  /** The client's field decoders store what the server's do, except over-long strings. */
  lemma SetFieldsAgree(c: Command, id: byte, v: bytes)
    ensures C.SetField(c, id, v).Ok? <==> S.SetField(c, id, v).Ok? && (IsString(id) ==> |v| <= 1024)
    ensures C.SetField(c, id, v).Ok? ==> C.SetField(c, id, v).value == S.SetField(c, id, v).value
    ensures C.SetField(c, id, v) == Err(C.DecodeStringTooLong) <==> IsString(id) && |v| > 1024
    ensures C.SetField(c, id, v) == Err(C.DecodeFieldOverflow) <==> Width(id).Some? && Width(id) != Some(|v|)
    ensures C.SetField(c, id, v) == Err(C.DecodeUnknownField) <==> !IsString(id) && Width(id).None?
  {
    if id == MONETARY_VALUE && |v| == 8 {
      SwapOfLoad(v);
    }
  }

  /** The server decodes exactly the readable byte strings whose fields are all well formed. */
  predicate Acceptable(data: bytes) {
    Fields(data).Some? && AllWellFormed(Fields(data).value)
  }

  lemma {:induction false} ServerRest(rest: bytes, fs: seq<Field>)
    ensures S.DecodeRest(rest, Meaning(fs)).Ok? <==> Acceptable(rest)
    ensures Acceptable(rest) ==> S.DecodeRest(rest, Meaning(fs)).value == Meaning(fs + Fields(rest).value)
    decreases |rest|
  {
    hide S.SetField, Meaning, LoadBe32, WellFormed;
    if |rest| < FIELD_HEADER {
      assert fs + [] == fs;
    } else if FIELD_HEADER + LengthAt(rest) <= |rest| {
      var next := FIELD_HEADER + LengthAt(rest);
      var f := Field(rest[0], rest[FIELD_HEADER..next]);
      MeaningSnoc(fs, f);
      ServerRest(rest[next..], fs + [f]);
      AcceptableStep(rest);
      if Acceptable(rest) {
        assert fs + Fields(rest).value == (fs + [f]) + Fields(rest[next..]).value;
      }
    }
  }

  lemma AcceptableStep(rest: bytes)
    requires |rest| >= FIELD_HEADER && FIELD_HEADER + LengthAt(rest) <= |rest|
    ensures var next := FIELD_HEADER + LengthAt(rest);
            Acceptable(rest) <==> WellFormed(Field(rest[0], rest[FIELD_HEADER..next])) && Acceptable(rest[next..])
  {
    var next := FIELD_HEADER + LengthAt(rest);
    var f := Field(rest[0], rest[FIELD_HEADER..next]);
    if Fields(rest).Some? {
      assert Fields(rest).value == [f] + Fields(rest[next..]).value;
      if Acceptable(rest) {
        assert f in Fields(rest).value;
        forall g | g in Fields(rest[next..]).value ensures WellFormed(g) { assert g in Fields(rest).value; }
      }
    }
  }

  lemma ServerDecodesMeaning(data: bytes)
    ensures S.Decode(data).Ok? <==> Acceptable(data)
    ensures Acceptable(data) ==> S.Decode(data).value == Meaning(Fields(data).value)
  {
    assert Meaning([]) == EMPTY;
    ServerRest(data, []);
    if Acceptable(data) {
      assert [] + Fields(data).value == Fields(data).value;
    }
  }

  lemma {:induction false} ClientRest(rest: bytes, c: Command)
    ensures C.DecodeRest(rest, c).Ok? <==>
            S.DecodeRest(rest, c).Ok? && Fields(rest).Some? && StringsWithin(Fields(rest).value, C.MAX_STRING)
    ensures C.DecodeRest(rest, c).Ok? ==> C.DecodeRest(rest, c).value == S.DecodeRest(rest, c).value
    decreases |rest|
  {
    if |rest| >= FIELD_HEADER && FIELD_HEADER + LengthAt(rest) <= |rest| {
      var next := FIELD_HEADER + LengthAt(rest);
      var f := Field(rest[0], rest[FIELD_HEADER..next]);
      SetFieldsAgree(c, f.id, f.value);
      var stored := S.SetField(c, f.id, f.value);
      if stored.Ok? {
        ClientRest(rest[next..], stored.value);
      }
      if Fields(rest).Some? {
        assert Fields(rest).value == [f] + Fields(rest[next..]).value;
        StringsWithinCons(f, Fields(rest[next..]).value);
      }
    }
  }

  lemma StringsWithinCons(f: Field, fs: seq<Field>)
    ensures StringsWithin([f] + fs, C.MAX_STRING) <==>
            (IsString(f.id) ==> |f.value| <= C.MAX_STRING) && StringsWithin(fs, C.MAX_STRING)
  {
    if StringsWithin([f] + fs, C.MAX_STRING) {
      assert f in [f] + fs;
      forall g | g in fs ensures IsString(g.id) ==> |g.value| <= C.MAX_STRING { assert g in [f] + fs; }
    }
  }

  lemma {:induction false} NeverEmpty(rest: bytes, c: Command)
    ensures C.DecodeRest(rest, c) != Err(C.DecodeEmptyData)
    decreases |rest|
  {
    hide LoadBe32;
    if |rest| >= FIELD_HEADER && FIELD_HEADER + LengthAt(rest) <= |rest| {
      var next := FIELD_HEADER + LengthAt(rest);
      var stored := C.SetField(c, rest[0], rest[FIELD_HEADER..next]);
      if stored.Ok? {
        NeverEmpty(rest[next..], stored.value);
      }
    }
  }

  /** The decoders agree on every byte string: the client accepts exactly what the server accepts
      that is non-empty and has no string above 1024 bytes, and then reads the same command. */
  lemma DecodersAgree(data: bytes)
    ensures C.Decode(data).Ok? <==>
            data != [] && S.Decode(data).Ok? && Fields(data).Some? && StringsWithin(Fields(data).value, 1024)
    ensures C.Decode(data).Ok? ==>
            C.Decode(data).value == S.Decode(data).value && S.Decode(data).value == Meaning(Fields(data).value)
    ensures C.Decode(data) == Err(C.DecodeEmptyData) <==> data == []
  {
    hide C.SetField, LoadBe32;
    ServerDecodesMeaning(data);
    NeverEmpty(data, EMPTY);
    ClientRest(data, EMPTY);
  }

  // ----- round trips of commands -----

  /** Every string of the command has at most `limit` bytes. */
  predicate Bounded(c: Command, limit: nat) {
    (c.ownerName.Some? ==> |c.ownerName.value| <= limit) && (c.password.Some? ==> |c.password.value| <= limit)
    && (c.txOwnerName.Some? ==> |c.txOwnerName.value| <= limit)
    && (c.monitorUpdates.Some? ==> |c.monitorUpdates.value| <= limit)
  }

  lemma Visit(fs: seq<Field>, more: seq<Field>, limit: nat)
    requires |more| <= 1 && AllWellFormed(fs) && (more != [] ==> WellFormed(more[0]))
    ensures AllWellFormed(fs + more)
    ensures Meaning(fs + more)
         == if more == [] then Meaning(fs) else S.SetField(Meaning(fs), more[0].id, more[0].value).value
    ensures StringsWithin(fs + more, limit) <==>
            StringsWithin(fs, limit) && (more != [] && IsString(more[0].id) ==> |more[0].value| <= limit)
  {
    if more == [] {
      assert fs + more == fs;
    } else {
      assert fs + more == fs + [more[0]];
      MeaningSnoc(fs, more[0]);
      assert more[0] in fs + more && forall f <- fs :: f in fs + more;
    }
  }

  /** `fs` stands for `c`, whose strings are within the limit exactly when those of `fs` are. */
  ghost predicate StandsFor(fs: seq<Field>, c: Command, limit: nat) {
    AllWellFormed(fs) && Meaning(fs) == c && (StringsWithin(fs, limit) <==> Bounded(c, limit))
  }

  lemma VisitU32(fs: seq<Field>, c: Command, id: byte, v: Option<u32>, limit: nat)
    requires StandsFor(fs, c, limit) && Width(id) == Some(4)
    ensures StandsFor(fs + C.U32Field(id, v), if v.None? then c else S.SetField(c, id, Be32(v.value)).value, limit)
  {
    Visit(fs, C.U32Field(id, v), limit);
  }

  lemma VisitByte(fs: seq<Field>, c: Command, id: byte, v: Option<byte>, limit: nat)
    requires StandsFor(fs, c, limit) && Width(id) == Some(1)
    ensures StandsFor(fs + C.ByteField(id, v), if v.None? then c else S.SetField(c, id, [v.value]).value, limit)
  {
    Visit(fs, C.ByteField(id, v), limit);
  }

  lemma VisitString(fs: seq<Field>, c: Command, id: byte, v: Option<bytes>, limit: nat)
    requires StandsFor(fs, c, limit) && IsString(id)
    requires id == OWNER_NAME ==> c.ownerName == None
    requires id == PASSWORD ==> c.password == None
    requires id == TX_OWNER_NAME ==> c.txOwnerName == None
    requires id == MONITOR_UPDATES ==> c.monitorUpdates == None
    ensures StandsFor(fs + C.StringField(id, v), if v.None? then c else S.SetField(c, id, v.value).value, limit)
  {
    Visit(fs, C.StringField(id, v), limit);
  }

  lemma VisitWord(fs: seq<Field>, c: Command, v: Option<bv64>, limit: nat)
    requires StandsFor(fs, c, limit)
    ensures StandsFor(fs + C.WordField(MONETARY_VALUE, v), if v.None? then c else c.(money := v), limit)
  {
    Visit(fs, C.WordField(MONETARY_VALUE, v), limit);
    if v.Some? {
      Be64RoundTrip(v.value);
    }
  }

  /** The field list of a command stands for that command. */
  lemma MeaningOfCommand(c: Command, limit: nat)
    ensures StandsFor(C.FieldsOf(c), c, limit)
  {
    hide StandsFor;
    StandsForEmpty(limit);
    var f1 := [] + C.ByteField(SERVICE, c.service);
    var c1 := EMPTY.(service := c.service);
    VisitByte([], EMPTY, SERVICE, c.service, limit);
    assert StandsFor(f1, c1, limit);
    assert f1 == C.ByteField(SERVICE, c.service);
    var f2 := f1 + C.U32Field(ACCOUNT_NUMBER, c.accountNumber);
    var c2 := c1.(accountNumber := c.accountNumber);
    if c.accountNumber.Some? { Be32RoundTrip(c.accountNumber.value); }
    VisitU32(f1, c1, ACCOUNT_NUMBER, c.accountNumber, limit);
    assert StandsFor(f2, c2, limit);
    var f3 := f2 + C.StringField(OWNER_NAME, c.ownerName);
    var c3 := c2.(ownerName := c.ownerName);
    VisitString(f2, c2, OWNER_NAME, c.ownerName, limit);
    assert StandsFor(f3, c3, limit);
    var f4 := f3 + C.StringField(PASSWORD, c.password);
    var c4 := c3.(password := c.password);
    VisitString(f3, c3, PASSWORD, c.password, limit);
    assert StandsFor(f4, c4, limit);
    RemainingFields(c, f4, c4, limit);
  }

  lemma StandsForEmpty(limit: nat)
    ensures StandsFor([], EMPTY, limit)
  {
  }

  lemma RemainingFields(c: Command, f4: seq<Field>, c4: Command, limit: nat)
    requires c4 == EMPTY.(service := c.service, accountNumber := c.accountNumber, ownerName := c.ownerName,
                          password := c.password)
    requires StandsFor(f4, c4, limit)
    ensures var fs := f4 + C.U32Field(TX_ACCOUNT_NUMBER, c.txAccountNumber)
                      + C.StringField(TX_OWNER_NAME, c.txOwnerName)
                    + C.WordField(MONETARY_VALUE, c.money) + C.ByteField(CURRENCY, c.currency)
                    + C.StringField(MONITOR_UPDATES, c.monitorUpdates) + C.U32Field(MONITOR_SECONDS, c.monitorSeconds);
            StandsFor(fs, c, limit)
  {
    hide StandsFor;
    var f5 := f4 + C.U32Field(TX_ACCOUNT_NUMBER, c.txAccountNumber);
    var c5 := c4.(txAccountNumber := c.txAccountNumber);
    if c.txAccountNumber.Some? { Be32RoundTrip(c.txAccountNumber.value); }
    VisitU32(f4, c4, TX_ACCOUNT_NUMBER, c.txAccountNumber, limit);
    assert StandsFor(f5, c5, limit);
    var f6 := f5 + C.StringField(TX_OWNER_NAME, c.txOwnerName);
    var c6 := c5.(txOwnerName := c.txOwnerName);
    VisitString(f5, c5, TX_OWNER_NAME, c.txOwnerName, limit);
    assert StandsFor(f6, c6, limit);
    var f7 := f6 + C.WordField(MONETARY_VALUE, c.money);
    var c7 := c6.(money := c.money);
    VisitWord(f6, c6, c.money, limit);
    assert StandsFor(f7, c7, limit);
    var f8 := f7 + C.ByteField(CURRENCY, c.currency);
    var c8 := c7.(currency := c.currency);
    VisitByte(f7, c7, CURRENCY, c.currency, limit);
    assert StandsFor(f8, c8, limit);
    var f9 := f8 + C.StringField(MONITOR_UPDATES, c.monitorUpdates);
    var c9 := c8.(monitorUpdates := c.monitorUpdates);
    VisitString(f8, c8, MONITOR_UPDATES, c.monitorUpdates, limit);
    assert StandsFor(f9, c9, limit);
    if c.monitorSeconds.Some? { Be32RoundTrip(c.monitorSeconds.value); }
    VisitU32(f9, c9, MONITOR_SECONDS, c.monitorSeconds, limit);
  }

  const MAX_U32: nat := 0xFFFF_FFFF

  lemma ShortFields(c: Command)
    requires Bounded(c, MAX_U32)
    ensures forall f <- C.FieldsOf(c) :: |f.value| < 0x1_0000_0000
  {
    MeaningOfCommand(c, MAX_U32);
  }

  lemma EncodeSucceeds(c: Command)
    ensures C.Encode(c).Ok? <==> c != EMPTY
    ensures c == EMPTY ==> C.Encode(c) == Err(C.EncodeEmptyCommand)
    ensures c != EMPTY ==> C.Encode(c).value == Pack(C.FieldsOf(c)) && C.Encode(c).value != []
  {
    MeaningOfCommand(c, MAX_U32);
    assert Meaning([]) == EMPTY;
    if C.FieldsOf(c) == [] {
      assert c == EMPTY;
    }
  }

  /** The server reads back every command the client can encode whose strings fit their 32-bit lengths. */
  lemma ServerReadsCommand(c: Command)
    requires c != EMPTY && Bounded(c, MAX_U32)
    ensures C.Encode(c).Ok? && S.Decode(C.Encode(c).value) == Ok(c)
  {
    EncodeSucceeds(c);
    ReadsPacked(c);
  }

  lemma ReadsPacked(c: Command)
    requires Bounded(c, MAX_U32)
    ensures Fields(Pack(C.FieldsOf(c))) == Some(C.FieldsOf(c)) && S.Decode(Pack(C.FieldsOf(c))) == Ok(c)
  {
    ShortFields(c);
    FieldsOfPack(C.FieldsOf(c), []);
    assert Pack(C.FieldsOf(c)) + [] == Pack(C.FieldsOf(c));
    MeaningOfCommand(c, MAX_U32);
    ServerDecodesMeaning(Pack(C.FieldsOf(c)));
  }

  /** The client reads its own encoding back exactly when no string exceeds 1024 bytes. */
  lemma ClientReadsCommand(c: Command)
    requires c != EMPTY && Bounded(c, MAX_U32)
    ensures C.Decode(C.Encode(c).value) == Ok(c) <==> Bounded(c, 1024)
  {
    EncodeSucceeds(c);
    ReadsPacked(c);
    MeaningOfCommand(c, C.MAX_STRING);
    DecodersAgree(C.Encode(c).value);
  }

  // ----- whole packets -----

  lemma HeaderLayout(m: M.Message, rest: bytes)
    ensures var d := M.HeaderBytes(m) + rest;
            d[0] == m.kind && d[1] == m.flag && LoadBe32(d[2..6]) == m.requestId && LoadBe32(d[6..10]) == m.ip
            && LoadBe16(d[10..12]) == m.port && LoadBe16(d[12..14]) == m.status
            && LoadBe32(d[14..18]) == |m.content| % 0x1_0000_0000 && d[18..] == rest
  {
    var d := M.HeaderBytes(m) + rest;
    assert d[2..6] == Be32(m.requestId) && d[6..10] == Be32(m.ip);
    assert d[10..12] == Be16(m.port) && d[12..14] == Be16(m.status);
    assert d[14..18] == Be32(|m.content| % 0x1_0000_0000);
    Be32RoundTrip(m.requestId);
    Be32RoundTrip(m.ip);
    Be16RoundTrip(m.port);
    Be16RoundTrip(m.status);
    Be32RoundTrip(|m.content| % 0x1_0000_0000);
  }

  /** A request: encoded and serialised by the client, the server parses the header it was given
      and decodes the command from byte 18 on. */
  lemma RequestRoundTrip(c: Command, flag: byte, requestId: u32, ip: u32, port: u16)
    requires c != EMPTY && Bounded(c, MAX_U32)
    ensures var content := C.Encode(c).value;
            var packet := M.Serialized(M.Message(0, flag, requestId, ip, port, 0, content));
            S.ParseHeader(packet) == Ok(S.Header(0, flag, requestId, ip, port, 0, |content| % 0x1_0000_0000))
            && S.Decode(packet[S.HEADER_SIZE..]) == Ok(c)
  {
    ServerReadsCommand(c);
    var content := C.Encode(c).value;
    HeaderLayout(M.Message(0, flag, requestId, ip, port, 0, content), content);
  }

  /** A reply: built by the server, the client deserialises the header it was given and the content. */
  lemma ReplyRoundTrip(requestId: u32, a: S.Address, status: byte, content: bytes)
    requires |content| <= MAX_U32
    ensures M.Deserialized(S.ReplyPacket(requestId, a, status, content))
         == Ok(M.Message(1, 0, requestId, a.ip, a.port, status, content))
  {
    ReplyWithTail(requestId, a, status, content, []);
    assert S.ReplyPacket(requestId, a, status, content) + [] == S.ReplyPacket(requestId, a, status, content);
  }

  /** ... whatever bytes follow the content. */
  lemma ReplyWithTail(requestId: u32, a: S.Address, status: byte, content: bytes, tail: bytes)
    requires |content| <= MAX_U32
    ensures M.Deserialized(S.ReplyPacket(requestId, a, status, content) + tail)
         == Ok(M.Message(1, 0, requestId, a.ip, a.port, status, content))
  {
    hide Be32, Be16, LoadBe32, LoadBe16;
    var m := M.Message(1, 0, requestId, a.ip, a.port, status, content);
    HeaderLayout(m, content + tail);
    var d := M.HeaderBytes(m) + (content + tail);
    assert S.ReplyPacket(requestId, a, status, content) + tail == d;
    assert d[18..18 + |content|] == d[18..][..|content|] == content;
  }

  /** A reply cut short anywhere is refused, as too short a header up to 17 bytes and otherwise as too short a
      content. */
  lemma CutReplyIsRefused(requestId: u32, a: S.Address, status: byte, content: bytes, k: nat)
    requires |content| <= MAX_U32 && k < |S.ReplyPacket(requestId, a, status, content)|
    ensures M.Deserialized(S.ReplyPacket(requestId, a, status, content)[..k])
         == Err(if k < 18 then M.HeaderTooShort else M.PayloadOverflow)
  {
    hide Be32, Be16, LoadBe32, LoadBe16;
    var m := M.Message(1, 0, requestId, a.ip, a.port, status, content);
    HeaderLayout(m, content);
    var d := M.HeaderBytes(m) + content;
    assert S.ReplyPacket(requestId, a, status, content) == d;
    if k >= 18 {
      assert d[..k][14..18] == d[14..18];
    }
  }

  /** ... and decodes a non-empty well-formed field list in that content to what it stands for. */
  lemma ReplyFieldsRoundTrip(requestId: u32, a: S.Address, status: byte, fs: seq<Field>)
    requires fs != [] && AllWellFormed(fs) && StringsWithin(fs, C.MAX_STRING) && |Pack(fs)| <= MAX_U32
    ensures var m := M.Deserialized(S.ReplyPacket(requestId, a, status, Pack(fs)));
            m == Ok(M.Message(1, 0, requestId, a.ip, a.port, status, Pack(fs)))
            && C.Decode(m.value.content) == Ok(Meaning(fs))
  {
    ReplyRoundTrip(requestId, a, status, Pack(fs));
    forall f | f in fs ensures |f.value| < 0x1_0000_0000 {
      assert WellFormed(f);
    }
    FieldsOfPack(fs, []);
    assert Pack(fs) + [] == Pack(fs);
    DecodersAgree(Pack(fs));
    ServerDecodesMeaning(Pack(fs));
  }

  /** A callback: the server's packet holds its name, is the client's own encoding of it, and the
      client decodes the update bit for bit, whatever bytes follow. */
  lemma CallbackRoundTrip(u: S.CallbackUpdate, tail: bytes)
    requires |u.holder| <= MAX_U32
    ensures var cb := M.Callback(2, u.service, u.number, |u.holder|, u.holder, u.currency, u.balance);
            S.CallbackPacket(u) == M.EncodedCallback(cb)
            && M.HoldsName(S.CallbackPacket(u) + tail) && M.DecodedCallback(S.CallbackPacket(u) + tail) == Ok(cb)
  {
    hide Be64, LoadBe64;
    CallbackLayout(u, tail);
    Be64RoundTrip(u.balance);
  }

  lemma CallbackLayout(u: S.CallbackUpdate, tail: bytes)
    requires |u.holder| <= MAX_U32
    ensures var d, n := S.CallbackPacket(u) + tail, |u.holder|;
            |d| == 19 + n + |tail| && d[0] == 2 && d[1] == u.service
            && LoadBe32(d[2..6]) == u.number && LoadBe32(d[6..10]) == n
            && d[10..10 + n] == u.holder && d[10 + n] == u.currency && d[11 + n..19 + n] == Be64(u.balance)
  {
    hide Be64, Be32, LoadBe32;
    var d, n := S.CallbackPacket(u) + tail, |u.holder|;
    assert d[2..6] == Be32(u.number) && d[6..10] == Be32(n);
    Be32RoundTrip(u.number);
    Be32RoundTrip(n);
  }
}
