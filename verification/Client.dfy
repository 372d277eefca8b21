/** The client's request path: one identifier per logical request, the same bytes sent up to five
    times, callbacks set aside, the first other datagram taken as the reply. */
module Client {
  import opened Bytes
  import opened Commands
  import C = ClientCodec
  import M = ClientMessages

  const MSG_REQUEST: byte := 0
  const MSG_CALLBACK: byte := 2
  const AT_MOST_ONCE: byte := 2
  const MAX_TRIES: nat := 5
  const BACKOFF: nat := 2
  const STATUS_SUCCESS: byte := 0

  datatype Error =
    | Encoding(error: C.Error)
    | SendFailed
    | ReceiveTimeout
    | ReceiveFailed
    | Malformed(reason: M.Error)
    | BadStatus

  /** What the socket does with one attempt: the send fails, or it succeeds and the datagrams that
      can then be received are these, after which receiving fails. */
  datatype Attempt =
    | Unsent(error: Error)
    | Transmitted(datagrams: seq<bytes>, error: Error)

  predicate IsCallback(datagram: bytes) {
    datagram != [] && datagram[0] == MSG_CALLBACK
  }

  /** The first datagram that is not a callback. */
  function FirstReply(ds: seq<bytes>): Option<bytes> {
    if ds == [] then None else if !IsCallback(ds[0]) then Some(ds[0]) else FirstReply(ds[1..])
  }

  function Answer(a: Attempt): Option<bytes> {
    if a.Unsent? then None else FirstReply(a.datagrams)
  }

  /** The first answer, or how the last attempt failed. */
  function Chosen(attempts: seq<Attempt>): Result<bytes, Error>
    requires attempts != []
  {
    if Answer(attempts[0]).Some? then Ok(Answer(attempts[0]).value)
    else if |attempts| == 1 then Err(attempts[0].error)
    else Chosen(attempts[1..])
  }

  /** What the client makes of the bytes it took for the reply. */
  function Interpreted(raw: Result<bytes, Error>): Result<M.Message, Error> {
    if raw.Err? then Err(raw.error)
    else if M.Deserialized(raw.value).Err? then Err(Malformed(M.Deserialized(raw.value).error))
    else if M.Deserialized(raw.value).value.status != STATUS_SUCCESS then Err(BadStatus)
    else Ok(M.Deserialized(raw.value).value)
  }

  /** The wait, in seconds, after failed attempt i, counting from 0. */
  function Wait(i: nat): nat {
    if i == 0 then BACKOFF else 2 * Wait(i - 1)
  }

  lemma WaitsDouble()
    ensures Wait(0) == 2 && Wait(1) == 4 && Wait(2) == 8 && Wait(3) == 16
  {
  }

  /** The attempts whose send succeeds. */
  function Sendable(attempts: seq<Attempt>): set<nat> {
    set i: nat | i < |attempts| && attempts[i].Transmitted?
  }

  lemma OneMoreAttempt(attempts: seq<Attempt>, i: nat)
    requires i < |attempts|
    ensures |Sendable(attempts[..i + 1])| == |Sendable(attempts[..i])| + if attempts[i].Transmitted? then 1 else 0
  {
    var before := Sendable(attempts[..i]);
    assert Sendable(attempts[..i + 1]) == if attempts[i].Transmitted? then before + {i} else before;
  }

  /** A callback, known by its first byte 2, is never taken for a reply, and nothing but callbacks is passed over. */
  lemma {:induction false} FirstReplyIsNoCallback(ds: seq<bytes>)
    ensures FirstReply(ds) == None <==> forall d <- ds :: d != [] && d[0] == 2
    ensures FirstReply(ds).Some? ==>
              exists j: nat :: j < |ds| && ds[j] == FirstReply(ds).value && (ds[j] == [] || ds[j][0] != 2)
                               && forall d <- ds[..j] :: d != [] && d[0] == 2
  {
    if ds != [] {
      if IsCallback(ds[0]) {
        FirstReplyIsNoCallback(ds[1..]);
        if FirstReply(ds).Some? {
          var j: nat :| j < |ds[1..]| && ds[1..][j] == FirstReply(ds).value && (ds[1..][j] == [] || ds[1..][j][0] != 2)
                        && forall d <- ds[1..][..j] :: d != [] && d[0] == 2;
          assert ds[..j + 1] == [ds[0]] + ds[1..][..j];
          assert ds[j + 1] == ds[1..][j];
        }
      } else {
        assert ds[..0] == [];
      }
    }
  }

  /** The identifier of the n-th request of a client's lifetime, counting from one. */
  function RequestId(n: nat): u32 {
    n % 0x1_0000_0000
  }

  function Request(flag: byte, id: u32, ip: u32, port: u16, content: bytes): bytes {
    M.Serialized(M.Message(MSG_REQUEST, flag, id, ip, port, 0, content))
  }

  class BankClient {
    var currentRequestId: u32
    const flag: byte
    const ip: u32
    const port: u16
    ghost var issued: nat // requests built in this lifetime

    ghost predicate Valid()
      reads this
    {
      currentRequestId == if flag == AT_MOST_ONCE then RequestId(issued) else 0
    }

    constructor (flag: byte, ip: u32, port: u16)
      ensures Valid() && issued == 0 && this.flag == flag && this.ip == ip && this.port == port
    {
      this.flag, this.ip, this.port := flag, ip, port;
      currentRequestId, issued := 0, 0;
    }

    method BuildMessage(data: bytes) returns (msg: M.Message)
      requires Valid()
      modifies this
      ensures Valid() && issued == old(issued) + 1
      ensures msg == M.Message(0, flag, if flag == 2 then RequestId(issued) else 0, ip, port, 0, data)
    {
      var id: u32 := 0;
      if flag == AT_MOST_ONCE {
        currentRequestId := (currentRequestId + 1) % 0x1_0000_0000;
        id := currentRequestId;
      }
      issued := issued + 1;
      msg := M.Message(MSG_REQUEST, flag, id, ip, port, 0, data);
    }

    /** A command that cannot be encoded uses up no identifier. */
    method PrepareMessage(cmd: Command) returns (r: Result<bytes, Error>)
      requires Valid()
      modifies this
      ensures Valid()
      ensures C.Encode(cmd).Err? ==> r == Err(Encoding(C.Encode(cmd).error)) && issued == old(issued)
      ensures C.Encode(cmd).Ok? ==>
                issued == old(issued) + 1
                && r == Ok(Request(flag, if flag == 2 then RequestId(issued) else 0, ip, port,
                                   C.Encode(cmd).value))
    {
      var encoded := C.EncodeMessage(cmd);
      if encoded.Err? {
        return Err(Encoding(encoded.error));
      }
      var msg := BuildMessage(encoded.value);
      var data := M.Serialize(msg);
      return Ok(data);
    }

    /** Every transmission carries the same bytes; each failed attempt but the last is followed by
        twice the wait of the one before. The result is the first reply of the first attempt that
        had one, or the failure of the fifth. */
    method SendToServer(data: bytes, attempts: seq<Attempt>)
      returns (r: Result<bytes, Error>, sent: seq<bytes>, waits: seq<nat>)
      requires |attempts| == 5
      ensures waits <= [2, 4, 8, 16]
      ensures forall i: nat | i < |waits| :: Answer(attempts[i]) == None
      ensures r.Ok? ==> Answer(attempts[|waits|]) == Some(r.value)
      ensures r.Err? ==>
                |waits| == 4 && Answer(attempts[4]) == None && r.error == attempts[4].error
      ensures r == Chosen(attempts)
      ensures |sent| == |Sendable(attempts[..|waits| + 1])| && forall s <- sent :: s == data
    {
      WaitsDouble();
      var wait := BACKOFF;
      sent, waits := [], [];
      for i := 0 to MAX_TRIES
        invariant |waits| == i < MAX_TRIES && wait == Wait(i)
        invariant waits == [2, 4, 8, 16][..i]
        invariant Chosen(attempts[i..]) == Chosen(attempts)
        invariant forall k: nat | k < i :: Answer(attempts[k]) == None
        invariant |sent| == |Sendable(attempts[..i])| && forall s <- sent :: s == data
      {
        OneMoreAttempt(attempts, i);
        match attempts[i] {
          case Unsent(_) =>
          case Transmitted(datagrams, _) =>
            sent := sent + [data];
            var next := 0;
            while next < |datagrams| && IsCallback(datagrams[next])
              invariant next <= |datagrams| && FirstReply(datagrams[next..]) == FirstReply(datagrams)
            {
              next := next + 1;
            }
            if next < |datagrams| {
              return Ok(datagrams[next]), sent, waits;
            }
        }
        if i + 1 < MAX_TRIES {
          waits := waits + [wait];
          wait := 2 * wait;
        } else {
          return Err(attempts[i].error), sent, waits;
        }
      }
      assert false;
    }

    /** One logical request, from the command to the server's message. */
    method ExecuteRequest(cmd: Command, attempts: seq<Attempt>) returns (r: Result<M.Message, Error>, sent: seq<bytes>)
      requires Valid() && |attempts| == 5
      modifies this
      ensures Valid()
      ensures forall s <- sent :: C.Encode(cmd).Ok? &&
                s == Request(flag, if flag == 2 then RequestId(issued) else 0, ip, port, C.Encode(cmd).value)
      ensures |sent| <= 5 && (sent != [] <== C.Encode(cmd).Ok? && attempts[0].Transmitted?)
      ensures r == if C.Encode(cmd).Err? then Err(Encoding(C.Encode(cmd).error)) else Interpreted(Chosen(attempts))
    {
      sent := [];
      var request := PrepareMessage(cmd);
      if request.Err? {
        return Err(request.error), sent;
      }
      var response, waits;
      response, sent, waits := SendToServer(request.value, attempts);
      FewAttempts(attempts[..|waits| + 1]);
      if response.Err? {
        return Err(response.error), sent;
      }
      var msg := M.Deserialize(response.value);
      if msg.Err? {
        return Err(Malformed(msg.error)), sent;
      }
      if msg.value.status != STATUS_SUCCESS {
        return Err(BadStatus), sent;
      }
      return Ok(msg.value), sent;
    }
  }

  lemma {:induction false} FewAttempts(attempts: seq<Attempt>)
    ensures |Sendable(attempts)| <= |attempts|
    ensures attempts != [] && attempts[0].Transmitted? ==> |Sendable(attempts)| > 0
  {
    if attempts != [] {
      var last := |attempts| - 1;
      FewAttempts(attempts[..last]);
      OneMoreAttempt(attempts, last);
      assert attempts[..last + 1] == attempts;
      assert attempts[0].Transmitted? ==> 0 in Sendable(attempts);
    }
  }
}
