/** The business-level command and the tag-length-value layout both programs write it in:
    [id (1)] [length (4, big-endian)] [value (length)], repeated. */
module Commands {
  import opened Bytes

  const SERVICE: byte := 1
  const ACCOUNT_NUMBER: byte := 2
  const OWNER_NAME: byte := 3
  const PASSWORD: byte := 4
  const TX_ACCOUNT_NUMBER: byte := 5
  const TX_OWNER_NAME: byte := 6
  const MONETARY_VALUE: byte := 7
  const CURRENCY: byte := 8
  const MONITOR_UPDATES: byte := 9
  const MONITOR_SECONDS: byte := 10

  const FIELD_HEADER: nat := 5

  datatype Command = Command(
    service: Option<byte>,
    accountNumber: Option<u32>,
    ownerName: Option<bytes>,
    password: Option<bytes>,
    txAccountNumber: Option<u32>,
    txOwnerName: Option<bytes>,
    money: Option<bv64>,
    currency: Option<byte>,
    monitorUpdates: Option<bytes>,
    monitorSeconds: Option<u32>)

  const EMPTY: Command := Command(None, None, None, None, None, None, None, None, None, None)

  datatype Field = Field(id: byte, value: bytes)

  predicate IsString(id: byte) {
    id == OWNER_NAME || id == PASSWORD || id == TX_OWNER_NAME || id == MONITOR_UPDATES
  }

  /** The only value length a fixed-width field may have. */
  function Width(id: byte): Option<nat> {
    if id == SERVICE || id == CURRENCY then Some(1)
    else if id == ACCOUNT_NUMBER || id == TX_ACCOUNT_NUMBER || id == MONITOR_SECONDS then Some(4)
    else if id == MONETARY_VALUE then Some(8)
    else None
  }

  predicate WellFormed(f: Field) {
    IsString(f.id) || Width(f.id) == Some(|f.value|)
  }

  predicate AllWellFormed(fs: seq<Field>) {
    forall f <- fs :: WellFormed(f)
  }

  /** No string value is longer than `limit` bytes. */
  predicate StringsWithin(fs: seq<Field>, limit: nat) {
    forall f <- fs :: IsString(f.id) ==> |f.value| <= limit
  }

  // ----- packing -----

  /** The length is cast to 32 bits, as both encoders do. */
  function PackField(f: Field): (s: bytes)
    ensures |s| == FIELD_HEADER + |f.value|
  {
    [f.id] + Be32(|f.value| % 0x1_0000_0000) + f.value
  }

  function Pack(fs: seq<Field>): bytes {
    if fs == [] then [] else PackField(fs[0]) + Pack(fs[1..])
  }

  lemma Associative(a: bytes, b: bytes, c: bytes)
    ensures a + (b + c) == (a + b) + c
  {
  }

  lemma {:induction false} PackAppend(a: seq<Field>, b: seq<Field>)
    ensures Pack(a + b) == Pack(a) + Pack(b)
  {
    if a == [] {
      assert a + b == b;
    } else {
      PackAppend(a[1..], b);
      assert (a + b)[1..] == a[1..] + b && (a + b)[0] == a[0];
      Associative(PackField(a[0]), Pack(a[1..]), Pack(b));
    }
  }

  // ----- what a field list means -----

  /** The value of the last field carrying `id`. */
  function Last(fs: seq<Field>, id: byte): Option<bytes> {
    if fs == [] then None
    else if fs[|fs| - 1].id == id then Some(fs[|fs| - 1].value)
    else Last(fs[..|fs| - 1], id)
  }

  function ByteOf(v: Option<bytes>): Option<byte> {
    if v.Some? && |v.value| == 1 then Some(v.value[0]) else None
  }

  function U32Of(v: Option<bytes>): Option<u32> {
    if v.Some? && |v.value| == 4 then Some(LoadBe32(v.value)) else None
  }

  function WordOf(v: Option<bytes>): Option<bv64> {
    if v.Some? && |v.value| == 8 then Some(LoadBe64(v.value)) else None
  }

  /** The command a field list stands for: for each field the last occurrence wins. */
  function Meaning(fs: seq<Field>): Command {
    Command(
      ByteOf(Last(fs, SERVICE)),
      U32Of(Last(fs, ACCOUNT_NUMBER)),
      Last(fs, OWNER_NAME),
      Last(fs, PASSWORD),
      U32Of(Last(fs, TX_ACCOUNT_NUMBER)),
      Last(fs, TX_OWNER_NAME),
      WordOf(Last(fs, MONETARY_VALUE)),
      ByteOf(Last(fs, CURRENCY)),
      Last(fs, MONITOR_UPDATES),
      U32Of(Last(fs, MONITOR_SECONDS)))
  }

  // ----- reading the layout back -----

  function LengthAt(data: bytes): u32
    requires |data| >= FIELD_HEADER
  {
    LoadBe32(data[1..FIELD_HEADER])
  }

  /** The fields laid out in `data`, or None when a length runs past the end. Fewer than
      five bytes at the end are not a field and are ignored by both decoders. */
  function Fields(data: bytes): Option<seq<Field>>
    decreases |data|
  {
    if |data| < FIELD_HEADER then Some([])
    else if FIELD_HEADER + LengthAt(data) > |data| then None
    else
      var next := FIELD_HEADER + LengthAt(data);
      var rest := Fields(data[next..]);
      if rest.None? then None else Some([Field(data[0], data[FIELD_HEADER..next])] + rest.value)
  }

  lemma FirstFieldOfPack(f: Field, rest: bytes)
    requires |f.value| < 0x1_0000_0000
    ensures var data := PackField(f) + rest;
            data[0] == f.id && LengthAt(data) == |f.value|
            && data[FIELD_HEADER..FIELD_HEADER + |f.value|] == f.value
            && data[FIELD_HEADER + |f.value|..] == rest
  {
    var data := PackField(f) + rest;
    assert data[1..FIELD_HEADER] == Be32(|f.value|);
    Be32RoundTrip(|f.value|);
  }

  /** Reading a packed list gives the list back, whatever incomplete header follows it. */
  lemma {:induction false} FieldsOfPack(fs: seq<Field>, tail: bytes)
    requires forall f <- fs :: |f.value| < 0x1_0000_0000
    requires |tail| < FIELD_HEADER
    ensures Fields(Pack(fs) + tail) == Some(fs)
  {
    if fs == [] {
      assert Pack(fs) + tail == tail;
    } else {
      FieldsOfPack(fs[1..], tail);
      FirstFieldOfPack(fs[0], Pack(fs[1..]) + tail);
      assert Pack(fs) + tail == PackField(fs[0]) + (Pack(fs[1..]) + tail);
      assert [fs[0]] + fs[1..] == fs;
    }
  }

  /** Every readable byte string is a packed list followed by less than one field header. */
  lemma {:induction false} PackOfFields(data: bytes) returns (tail: bytes)
    requires Fields(data).Some?
    ensures data == Pack(Fields(data).value) + tail && |tail| < FIELD_HEADER
    decreases |data|
  {
    if |data| < FIELD_HEADER {
      tail := data;
    } else {
      var fs, next := Fields(data).value, FIELD_HEADER + LengthAt(data);
      tail := PackOfFields(data[next..]);
      assert fs[1..] == Fields(data[next..]).value;
      RepackFirst(data);
      Associative(PackField(fs[0]), Pack(fs[1..]), tail);
    }
  }

  lemma RepackFirst(data: bytes)
    requires |data| >= FIELD_HEADER && FIELD_HEADER + LengthAt(data) <= |data|
    ensures var next := FIELD_HEADER + LengthAt(data);
            data == PackField(Field(data[0], data[FIELD_HEADER..next])) + data[next..]
  {
    var next := FIELD_HEADER + LengthAt(data);
    Be32OfLoad(data[1..FIELD_HEADER]);
    assert data == [data[0]] + data[1..FIELD_HEADER] + data[FIELD_HEADER..next] + data[next..];
  }

  lemma Be32OfLoad(s: bytes)
    requires |s| == 4
    ensures Be32(LoadBe32(s)) == s
  {
    assert s == s[..2] + s[2..];
    Be16OfLoad(s[..2]);
    Be16OfLoad(s[2..]);
  }

  lemma Be16OfLoad(s: bytes)
    requires |s| == 2
    ensures Be16(LoadBe16(s)) == s
  {
  }
}
