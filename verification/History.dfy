/** The reply history as a mutable object: a table of replies for each client endpoint. */
module History {
  import opened Bytes
  import opened ServerCodec
  import opened Dispatching

  type Replies = map<u32, bytes>

  type Entries = map<Address, Replies>

  /** The nested tables as one. */
  function Flat(entries: Entries): map<Key, bytes> {
    map k <- FlatKeys(entries) :: entries[k.client][k.requestId]
  }

  function FlatKeys(entries: Entries): (keys: set<Key>)
    ensures forall k: Key :: k in keys <==> k.client in entries && k.requestId in entries[k.client]
  {
    set a, id | a in entries && id in entries[a] :: Key(a, id)
  }

  function KeysFor(client: Address, ids: set<u32>): set<Key> {
    set id <- ids :: Key(client, id)
  }

  function Outside(entries: Entries, left: set<Address>): Entries {
    map a <- entries | a !in left :: entries[a]
  }

  lemma {:induction false} KeysForSize(client: Address, ids: set<u32>)
    ensures |KeysFor(client, ids)| == |ids|
    decreases ids
  {
    if ids != {} {
      var id :| id in ids;
      KeysForSize(client, ids - {id});
      assert KeysFor(client, ids) == KeysFor(client, ids - {id}) + {Key(client, id)};
    }
  }

  lemma FlatStore(entries: Entries, a: Address, inner: Replies, id: u32, reply: bytes)
    requires inner == if a in entries then entries[a] else map[]
    ensures Flat(entries[a := inner[id := reply]]) == Flat(entries)[Key(a, id) := reply]
  {
    hide FlatKeys;
  }

  lemma FlatRemove(entries: Entries, a: Address, ids: set<u32>)
    requires a in entries
    ensures Flat(entries[a := entries[a] - ids]) == Flat(entries) - KeysFor(a, ids)
  {
    hide FlatKeys;
  }

  lemma FlatRemoveClient(entries: Entries, a: Address)
    ensures Flat(entries - {a}) == Flat(entries) - Evicted(EvictClient(a), Flat(entries))
  {
    hide FlatKeys;
  }

  lemma FlatSplit(entries: Entries, left: set<Address>, a: Address)
    requires a in left && a in entries
    ensures |Flat(Outside(entries, left - {a}))| == |Flat(Outside(entries, left))| + |entries[a]|
  {
    var some, more := Outside(entries, left), Outside(entries, left - {a});
    OutsideKeys(entries, left, a);
    DisjointSize(FlatKeys(some), KeysFor(a, entries[a].Keys));
    KeysForSize(a, entries[a].Keys);
    assert Flat(some).Keys == FlatKeys(some) && Flat(more).Keys == FlatKeys(more);
  }

  lemma DisjointSize(a: set<Key>, b: set<Key>)
    requires a !! b
    ensures |a + b| == |a| + |b|
  {
  }

  lemma OutsideKeys(entries: Entries, left: set<Address>, a: Address)
    requires a in left && a in entries
    ensures FlatKeys(Outside(entries, left - {a})) == FlatKeys(Outside(entries, left)) + KeysFor(a, entries[a].Keys)
    ensures FlatKeys(Outside(entries, left)) !! KeysFor(a, entries[a].Keys)
  {
    hide FlatKeys, KeysFor;
    forall k: Key ensures k in KeysFor(a, entries[a].Keys) <==> k.client == a && k.requestId in entries[a] {
      KeysForHas(a, entries[a].Keys, k);
    }
  }

  lemma KeysForHas(client: Address, ids: set<u32>, k: Key)
    ensures k in KeysFor(client, ids) <==> k.client == client && k.requestId in ids
  {
  }

  // ----- the tables as the server keeps them: each reply in a buffer of its own -----

  type Buffer = array<byte>

  type Table = map<Address, map<u32, Buffer>>

  ghost function Buffers(table: Table): set<Buffer> {
    set a, id | a in table && id in table[a] :: table[a][id]
  }

  method Copy(reply: Buffer) returns (stored: Buffer)
    ensures fresh(stored) && stored[..] == reply[..]
  {
    stored := new byte[reply.Length](_ => 0);
    for i := 0 to reply.Length
      invariant stored[..i] == reply[..i]
    {
      stored[i] := reply[i];
    }
    assert stored[..] == stored[..reply.Length] && reply[..] == reply[..reply.Length];
  }

  /** The buffers hold these replies. */
  ghost predicate Matches(table: Table, values: Entries)
    reads Buffers(table)
  {
    table.Keys == values.Keys
    && (forall a <- table :: table[a].Keys == values[a].Keys)
    && (forall a <- table, id <- table[a] :: table[a][id][..] == values[a][id])
  }

  lemma StoreMatches(table: Table, values: Entries, client: Address, clientEntries: map<u32, Buffer>, inner: Replies,
                     id: u32, stored: Buffer)
    requires Matches(table, values)
    requires clientEntries == if client in table then table[client] else map[]
    requires inner == if client in values then values[client] else map[]
    ensures Matches(table[client := clientEntries[id := stored]], values[client := inner[id := stored[..]]])
    ensures Buffers(table[client := clientEntries[id := stored]]) <= Buffers(table) + {stored}
  {
  }

  lemma RemoveMatches(table: Table, values: Entries, client: Address, gone: set<u32>)
    requires Matches(table, values) && client in table
    ensures client in values && Matches(table[client := table[client] - gone], values[client := values[client] - gone])
    ensures Buffers(table[client := table[client] - gone]) <= Buffers(table)
  {
  }

  class ReplyHistory {
    var entries: Table
    ghost var values: Entries // what the buffers hold

    ghost predicate Valid()
      reads this, Repr()
    {
      Matches(entries, values)
    }

    ghost function Repr(): set<Buffer>
      reads this
    {
      Buffers(entries)
    }

    ghost function Contents(): map<Key, bytes>
      reads this
    {
      Flat(values)
    }

    constructor ()
      ensures Valid() && Contents() == map[] && Repr() == {}
    {
      entries, values := map[], map[];
    }

    /** Hands out the remembered buffer itself: whoever writes to it rewrites history. */
    method Lookup(client: Address, id: u32) returns (r: Option<Buffer>)
      requires Valid()
      ensures r.Some? <==> Key(client, id) in Contents()
      ensures r.Some? ==> r.value in Repr() && r.value[..] == Contents()[Key(client, id)]
    {
      hide FlatKeys;
      if client !in entries {
        return None;
      }
      var clientEntries := entries[client];
      return if id in clientEntries then Some(clientEntries[id]) else None;
    }

    /** Remembers a copy, so that what the caller does to its own buffer afterwards does not matter. */
    method Store(client: Address, id: u32, reply: Buffer)
      requires Valid()
      modifies this
      ensures Valid() && fresh(Repr() - old(Repr())) && (reply in Repr() ==> reply in old(Repr()))
      ensures Contents() == old(Contents())[Key(client, id) := reply[..]]
    {
      hide Flat, Buffers;
      ghost var inner := if client in values then values[client] else map[];
      FlatStore(values, client, inner, id, reply[..]);
      var stored := Copy(reply);
      ghost var known: map<u32, Buffer> := if client in entries then entries[client] else map[];
      StoreMatches(entries, values, client, known, inner, id, stored);
      hide Matches;
      if client !in entries {
        entries := entries[client := map[]];
      }
      var clientEntries: map<u32, Buffer> := entries[client];
      clientEntries := clientEntries[id := stored];
      entries := entries[client := clientEntries];
      values := values[client := inner[id := reply[..]]];
      assert entries == old(entries)[client := known[id := stored]];
    }

    method EvictClient(client: Address)
      requires Valid()
      modifies this
      ensures Valid() && Repr() <= old(Repr())
      ensures Contents() == old(Contents()) - Evicted(Event.EvictClient(client), old(Contents()))
    {
      hide Flat;
      FlatRemoveClient(values, client);
      entries := entries - {client};
      values := values - {client};
    }

    method EvictBefore(client: Address, threshold: u32) returns (evicted: nat)
      requires Valid()
      modifies this
      ensures Valid() && Repr() <= old(Repr())
      ensures Contents() == old(Contents()) - Evicted(Event.EvictBefore(client, threshold), old(Contents()))
      ensures evicted == |Evicted(Event.EvictBefore(client, threshold), old(Contents()))|
    {
      hide Flat, Evicted;
      evicted := 0;
      if client !in entries {
        NothingToEvict(values, client, threshold);
        return;
      }
      ghost var gone: set<u32> := {};
      var clientEntries: map<u32, Buffer> := entries[client];
      var left := clientEntries.Keys;
      while left != {}
        invariant left <= entries[client].Keys && gone == set id <- entries[client] | id < threshold && id !in left
        invariant clientEntries == entries[client] - gone && evicted == |gone|
        decreases left
        modifies {}
      {
        var id :| id in left;
        if id < threshold {
          clientEntries := clientEntries - {id};
          evicted := evicted + 1;
          gone := gone + {id};
        }
        left := left - {id};
      }
      RemoveMatches(entries, values, client, gone);
      BelowThreshold(values, client, threshold, gone);
      hide Matches, Buffers;
      entries := entries[client := clientEntries];
      values := values[client := values[client] - gone];
    }

    method Size() returns (total: nat)
      requires Valid()
      ensures total == |Contents()|
    {
      total := 0;
      var left := entries.Keys;
      assert Outside(values, left) == map[];
      while left != {}
        invariant left <= entries.Keys
        invariant total == |Flat(Outside(values, left))|
        decreases left
      {
        var a :| a in left;
        FlatSplit(values, left, a);
        SameSize(entries[a], values[a]);
        total := total + |entries[a]|;
        left := left - {a};
      }
      assert Outside(values, {}) == values;
    }
  }

  lemma NothingToEvict(entries: Entries, client: Address, threshold: u32)
    requires client !in entries
    ensures Evicted(Event.EvictBefore(client, threshold), Flat(entries)) == {}
  {
  }

  lemma BelowThreshold(entries: Entries, client: Address, threshold: u32, gone: set<u32>)
    requires client in entries && gone == set id <- entries[client] | id < threshold
    ensures var e := Event.EvictBefore(client, threshold);
            Flat(entries[client := entries[client] - gone]) == Flat(entries) - Evicted(e, Flat(entries))
            && |gone| == |Evicted(e, Flat(entries))|
  {
    FlatRemove(entries, client, gone);
    KeysForSize(client, gone);
    assert KeysFor(client, gone) == Evicted(Event.EvictBefore(client, threshold), Flat(entries));
  }

  lemma SameSize(a: map<u32, Buffer>, b: Replies)
    requires a.Keys == b.Keys
    ensures |a| == |b|
  {
    assert |a.Keys| == |b.Keys|;
  }
}
