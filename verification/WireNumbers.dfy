/** The layouts on the wire in the protocol's own numbers: where each part of a packet lies, and which field of a
    command each field id stands for. */
module WireNumbers {
  import opened Bytes
  import opened Commands
  import opened WireTheorems
  import Client
  import M = ClientMessages
  import S = ServerCodec

  // ----- numbers -----

  /** Four bytes stand for the number they spell in base 256, the highest digit first. */
  lemma Base256(n: u32, s: bytes)
    requires |s| == 4
    ensures s == Be32(n) <==> n == 0x100_0000 * s[0] as int + 0x1_0000 * s[1] as int + 0x100 * s[2] as int + s[3]
    ensures LoadBe32(s) == n <==> s == Be32(n)
  {
    Be32OfLoad(s);
    Be32RoundTrip(n);
  }

  /** Every byte is the value of eight bits. */
  lemma {:induction false} BitsOf(b: nat) returns (x: bv8)
    requires b < 256
    ensures x as nat == b
  {
    if b == 0 {
      x := 0;
    } else {
      var y := BitsOf(b - 1);
      x := y + 1;
    }
  }

  lemma NarrowBack(b: byte)
    ensures (b as bv8) as int == b
  {
    var x := BitsOf(b);
    NarrowRoundTrip(x);
  }

  lemma NarrowWidened(x: bv8)
    ensures (x as bv64) as bv8 == x
  {
  }

  lemma LowOfWiden(b: byte, w: bv64)
    requires w & 0xFF == Widen(b)
    ensures Low(w) == b
  {
    NarrowBack(b);
    NarrowWidened(b as bv8);
  }

  lemma PartsOfJoin(a: bv64, b: bv64, c: bv64, d: bv64, e: bv64, f: bv64, g: bv64, h: bv64)
    requires a <= 0xFF && b <= 0xFF && c <= 0xFF && d <= 0xFF && e <= 0xFF && f <= 0xFF && g <= 0xFF && h <= 0xFF
    ensures var w := (a << 56) | (b << 48) | (c << 40) | (d << 32) | (e << 24) | (f << 16) | (g << 8) | h;
            (w >> 56) & 0xFF == a && (w >> 48) & 0xFF == b && (w >> 40) & 0xFF == c && (w >> 32) & 0xFF == d
            && (w >> 24) & 0xFF == e && (w >> 16) & 0xFF == f && (w >> 8) & 0xFF == g && w & 0xFF == h
  {
  }

  lemma WidenedAreSmall(s: bytes)
    ensures forall i: nat | i < |s| :: Widen(s[i]) <= 0xFF
  {
  }

  lemma PartsOfLoad(s: bytes)
    requires |s| == 8
    ensures var w := LoadBe64(s);
            (w >> 56) & 0xFF == Widen(s[0]) && (w >> 48) & 0xFF == Widen(s[1]) && (w >> 40) & 0xFF == Widen(s[2])
            && (w >> 32) & 0xFF == Widen(s[3]) && (w >> 24) & 0xFF == Widen(s[4]) && (w >> 16) & 0xFF == Widen(s[5])
            && (w >> 8) & 0xFF == Widen(s[6]) && w & 0xFF == Widen(s[7])
  {
    hide Widen;
    WidenedAreSmall(s);
    PartsOfJoin(Widen(s[0]), Widen(s[1]), Widen(s[2]), Widen(s[3]), Widen(s[4]), Widen(s[5]), Widen(s[6]), Widen(s[7]));
  }

  lemma BytesOfParts(w: bv64, s: bytes)
    requires |s| == 8
    requires (w >> 56) & 0xFF == Widen(s[0]) && (w >> 48) & 0xFF == Widen(s[1]) && (w >> 40) & 0xFF == Widen(s[2])
    requires (w >> 32) & 0xFF == Widen(s[3]) && (w >> 24) & 0xFF == Widen(s[4]) && (w >> 16) & 0xFF == Widen(s[5])
    requires (w >> 8) & 0xFF == Widen(s[6]) && w & 0xFF == Widen(s[7])
    ensures Be64(w) == s
  {
    hide Low, Widen;
    LowOfWiden(s[0], w >> 56); LowOfWiden(s[1], w >> 48); LowOfWiden(s[2], w >> 40); LowOfWiden(s[3], w >> 32);
    LowOfWiden(s[4], w >> 24); LowOfWiden(s[5], w >> 16); LowOfWiden(s[6], w >> 8); LowOfWiden(s[7], w);
  }

  lemma Be64OfLoad(s: bytes)
    requires |s| == 8
    ensures Be64(LoadBe64(s)) == s
  {
    hide Low, Widen, LoadBe64, Be64;
    PartsOfLoad(s);
    BytesOfParts(LoadBe64(s), s);
  }

  // ----- the fields of a command -----

  /** The last field with this id holds this value. */
  ghost predicate LastIs(fs: seq<Field>, id: byte, v: bytes) {
    exists i: nat :: i < |fs| && fs[i] == Field(id, v) && forall j: nat | i < j < |fs| :: fs[j].id != id
  }

  lemma {:induction false} LastExactly(fs: seq<Field>, id: byte, v: bytes)
    ensures Last(fs, id) == Some(v) <==> LastIs(fs, id, v)
  {
    if fs != [] {
      var init, last := fs[..|fs| - 1], |fs| - 1;
      LastExactly(init, id, v);
      if fs[last].id != id {
        if LastIs(init, id, v) {
          var i: nat :| i < |init| && init[i] == Field(id, v) && forall j: nat | i < j < |init| :: init[j].id != id;
          assert fs[i] == Field(id, v);
        }
        if LastIs(fs, id, v) {
          var i: nat :| i < |fs| && fs[i] == Field(id, v) && forall j: nat | i < j < |fs| :: fs[j].id != id;
          assert init[i] == Field(id, v);
        }
      }
    }
  }

  /** Which field id carries what: for every readable payload the server decodes each part of the command from the
      last field with that part's id, and leaves it out if there is none. */
  lemma FieldsByNumber(payload: bytes, c: Command)
    requires S.Decode(payload) == Ok(c)
    ensures Fields(payload).Some?
    ensures var fs := Fields(payload).value;
            (forall x: byte :: c.service == Some(x) <==> LastIs(fs, 1, [x]))
            && (forall n: u32 :: c.accountNumber == Some(n) <==> LastIs(fs, 2, Be32(n)))
            && (forall v: bytes :: c.ownerName == Some(v) <==> LastIs(fs, 3, v))
            && (forall v: bytes :: c.password == Some(v) <==> LastIs(fs, 4, v))
            && (forall n: u32 :: c.txAccountNumber == Some(n) <==> LastIs(fs, 5, Be32(n)))
    ensures var fs := Fields(payload).value;
            (forall v: bytes :: c.txOwnerName == Some(v) <==> LastIs(fs, 6, v))
            && (forall w: bv64 :: c.money == Some(w) <==> LastIs(fs, 7, Be64(w)))
            && (forall x: byte :: c.currency == Some(x) <==> LastIs(fs, 8, [x]))
            && (forall v: bytes :: c.monitorUpdates == Some(v) <==> LastIs(fs, 9, v))
            && (forall n: u32 :: c.monitorSeconds == Some(n) <==> LastIs(fs, 10, Be32(n)))
  {
    hide Be32, LoadBe32, Be64, LoadBe64, Fields, S.Decode, LastIs;
    ServerDecodesMeaning(payload);
    var fs := Fields(payload).value;
    forall id: byte, v: bytes ensures Last(fs, id) == Some(v) <==> LastIs(fs, id, v) {
      LastExactly(fs, id, v);
    }
    assert forall v: bytes, x: byte :: v == [x] <==> |v| == 1 && v[0] == x;
    forall v: bytes | |v| == 4 ensures forall n: u32 :: LoadBe32(v) == n <==> v == Be32(n) {
      forall n: u32 ensures LoadBe32(v) == n <==> v == Be32(n) {
        Base256(n, v);
      }
    }
    forall v: bytes | |v| == 8 ensures forall w: bv64 :: LoadBe64(v) == w <==> v == Be64(w) {
      forall w: bv64 ensures LoadBe64(v) == w <==> v == Be64(w) {
        Be64OfLoad(v);
        Be64RoundTrip(w);
      }
    }
  }

  // ----- whole packets -----

  /** A request: type 0, the client's flag, the id, the client's address, status 0, the content's length and the
      content. The server reads the id from bytes 2 to 5 and the command from byte 18 on. */
  lemma RequestLayout(flag: byte, id: u32, ip: u32, port: u16, content: bytes)
    ensures var packet := Client.Request(flag, id, ip, port, content);
            packet == [0, flag] + Be32(id) + Be32(ip) + Be16(port) + [0, 0] + Be32(|content| % 0x1_0000_0000) + content
            && S.ParseHeader(packet).Ok? && S.ParseHeader(packet).value.flag == packet[1]
            && Be32(S.ParseHeader(packet).value.requestId) == packet[2..6] && packet[18..] == content
  {
    var m := M.Message(0, flag, id, ip, port, 0, content);
    HeaderLayout(m, content);
    assert Be16(0) == [0, 0];
    Base256(id, M.Serialized(m)[2..6]);
  }
}
