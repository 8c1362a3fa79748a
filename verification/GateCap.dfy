/**
 The slot cap of the concurrency gate, under merges: a credential holds at most the
 limit for every separate identity that was merged into it, so at most the limit
 if it was never merged.
 */
module GateCap {
  import opened CredentialAliases
  import opened ConcurrencyGate
  import opened GateAdmission

  // The identities, each once a key of its own, that key `k` now stands for.
  function Founders(g: Gate, k: Key): set<Key> {
    set a | a in g.founded && Canon(g.aliases, a) == k
  }

  function FoundersOf(g: Gate, keys: set<Key>): set<Key> {
    set a | a in g.founded && Canon(g.aliases, a) in keys
  }

  // One more slot is promised on the credentials of the aliases in `spare`.
  function Extra(m: AliasMap, spare: set<Alias>, keys: set<Key>): nat {
    if exists a :: a in spare && Canon(m, a) in keys then 1 else 0
  }

  ghost predicate Room(g: Gate, limit: nat, spare: set<Alias>, k: Key) {
    Count(g.requests, k) + Extra(g.aliases, spare, {k}) <= limit * |Founders(g, k)|
  }

  ghost predicate Cap(g: Gate, limit: nat, spare: set<Alias>) {
    && spare <= g.aliases.Keys
    && forall k | k != "" :: Room(g, limit, spare, k)
  }

  lemma {:induction false} CapOfSet(g: Gate, limit: nat, spare: set<Alias>, keys: set<Key>)
    requires Cap(g, limit, spare) && "" !in keys
    ensures |SumCounts(g.requests, keys)| + Extra(g.aliases, spare, keys) <= limit * |FoundersOf(g, keys)|
    decreases keys
  {
    if keys == {} {
      assert SumCounts(g.requests, keys) == {};
    } else {
      var k :| k in keys;
      var rest := keys - {k};
      assert rest + {k} == keys;
      CapOfSet(g, limit, spare, rest);
      SumOfCounts(g.requests, rest, k);
      SumOfFounders(g, rest, k);
      SumOfExtras(g.aliases, spare, rest, k);
      assert Room(g, limit, spare, k);
      Distribute(limit, |FoundersOf(g, rest)|, |Founders(g, k)|);
    }
  }

  lemma SumOfFounders(g: Gate, keys: set<Key>, k: Key)
    requires k !in keys
    ensures |FoundersOf(g, keys + {k})| == |FoundersOf(g, keys)| + |Founders(g, k)|
  {
    assert FoundersOf(g, keys + {k}) == FoundersOf(g, keys) + Founders(g, k);
    assert FoundersOf(g, keys) !! Founders(g, k);
  }

  lemma SumOfExtras(m: AliasMap, spare: set<Alias>, keys: set<Key>, k: Key)
    ensures Extra(m, spare, keys + {k}) <= Extra(m, spare, keys) + Extra(m, spare, {k})
  {
  }

  lemma Distribute(x: nat, y: nat, z: nat)
    ensures x * (y + z) == x * y + x * z
  {
  }

  lemma Grows(x: nat, y: nat, z: nat)
    requires y <= z
    ensures x * y <= x * z
  {
  }

  // A lookup, with or without merges, keeps the cap and every promise.
  lemma KeyForKeepsCap(g: Gate, list: seq<Alias>, limit: nat, spare: set<Alias>)
    requires CanonicalKeys(g) && Cap(g, limit, spare) && AliasList(list)
    ensures Cap(KeyFor(g, list).0, limit, spare)
  {
    var (n, key) := KeyFor(g, list);
    MergedKeys(g.aliases, list, "");
    LearnKeepsIdempotent(g.aliases, list);
    MergeMovesSlots(g, list);
    forall k | k != "" ensures Room(n, limit, spare, k) {
      if k == key {
        SurvivorKeepsRoom(g, list, limit, spare);
      } else if k in OldKeys(g.aliases, list, key) {
        MergedKeyIsEmpty(g, list, limit, spare, k);
      } else {
        OthersKeepRoom(g, list, limit, spare, k);
      }
    }
  }

  lemma MergedKeyIsEmpty(g: Gate, list: seq<Alias>, limit: nat, spare: set<Alias>, k: Key)
    requires CanonicalKeys(g) && AliasList(list)
    requires k in OldKeys(g.aliases, list, ChosenKey(g.aliases, list))
    ensures Room(KeyFor(g, list).0, limit, spare, k)
  {
    MergedKeys(g.aliases, list, "");
    MergeMovesSlots(g, list);
    NoAliasLeft(g, list, k);
    assert Holders(KeyFor(g, list).0.requests, k) == {};
  }

  lemma NoAliasLeft(g: Gate, list: seq<Alias>, k: Key)
    requires CanonicalKeys(g) && AliasList(list)
    requires k in OldKeys(g.aliases, list, ChosenKey(g.aliases, list))
    ensures forall a :: Canon(KeyFor(g, list).0.aliases, a) != k
  {
    MergedKeys(g.aliases, list, "");
    LearnKeepsIdempotent(g.aliases, list);
  }

  // Which key an alias has afterwards, for aliases known before.
  lemma KeyAfter(g: Gate, list: seq<Alias>, a: Alias)
    requires CanonicalKeys(g) && AliasList(list) && a in g.aliases
    ensures var (n, key) := KeyFor(g, list);
            Canon(n.aliases, a) == if Canon(g.aliases, a) in OldKeys(g.aliases, list, key) then key else Canon(g.aliases, a)
  {
    MergedKeys(g.aliases, list, "");
    LearnKeepsIdempotent(g.aliases, list);
  }

  lemma OthersKeepRoom(g: Gate, list: seq<Alias>, limit: nat, spare: set<Alias>, k: Key)
    requires CanonicalKeys(g) && Cap(g, limit, spare) && AliasList(list)
    requires k != "" && k != KeyFor(g, list).1 && k !in OldKeys(g.aliases, list, KeyFor(g, list).1)
    ensures Room(KeyFor(g, list).0, limit, spare, k)
  {
    var (n, key) := KeyFor(g, list);
    MergedKeys(g.aliases, list, "");
    MergeMovesSlots(g, list);
    assert Room(g, limit, spare, k);
    forall a | a in g.aliases ensures Canon(n.aliases, a) == k <==> Canon(g.aliases, a) == k {
      KeyAfter(g, list, a);
    }
    assert Founders(g, k) <= Founders(n, k);
    SetSize(Founders(g, k), Founders(n, k));
    Grows(limit, |Founders(g, k)|, |Founders(n, k)|);
    assert Extra(n.aliases, spare, {k}) <= Extra(g.aliases, spare, {k});
  }

  lemma SurvivorKeepsRoom(g: Gate, list: seq<Alias>, limit: nat, spare: set<Alias>)
    requires CanonicalKeys(g) && Cap(g, limit, spare) && AliasList(list)
    ensures var (n, key) := KeyFor(g, list); Room(n, limit, spare, key)
  {
    var (n, key) := KeyFor(g, list);
    var keys := OldKeys(g.aliases, list, key) + {key};
    MergedKeys(g.aliases, list, "");
    MergeMovesSlots(g, list);
    CapOfSet(g, limit, spare, keys);
    forall a | a in g.aliases && Canon(n.aliases, a) == key ensures Canon(g.aliases, a) in keys {
      KeyAfter(g, list, a);
    }
    forall a | a in g.aliases && Canon(g.aliases, a) in keys ensures Canon(n.aliases, a) == key {
      KeyAfter(g, list, a);
    }
    assert Extra(n.aliases, spare, {key}) <= Extra(g.aliases, spare, keys);
    forall a | a in FoundersOf(g, keys) ensures a in Founders(n, key) {
      assert a in g.aliases;
    }
    SetSize(FoundersOf(g, keys), Founders(n, key));
    Grows(limit, |FoundersOf(g, keys)|, |Founders(n, key)|);
  }

  lemma {:induction false} SetSize<T>(a: set<T>, b: set<T>)
    requires a <= b
    ensures |a| <= |b|
  {
    assert b == a + (b - a);
  }

  // An unblocked credential can promise one more slot.
  lemma PromiseSlot(g: Gate, limit: nat, spare: set<Alias>, a: Alias)
    requires CanonicalKeys(g) && Cap(g, limit, spare)
    requires a in g.aliases && Count(g.requests, Canon(g.aliases, a)) < limit
    ensures Cap(g, limit, spare + {a})
  {
    var key := Canon(g.aliases, a);
    assert key in Founders(g, key);
    SetSize({key}, Founders(g, key));
    Grows(limit, 1, |Founders(g, key)|);
    forall k | k != "" ensures Room(g, limit, spare + {a}, k) {
      assert Room(g, limit, spare, k);
      assert k != key ==> Extra(g.aliases, spare + {a}, {k}) <= Extra(g.aliases, spare, {k});
    }
  }

  lemma FewerPromises(g: Gate, limit: nat, spare: set<Alias>, fewer: set<Alias>)
    requires Cap(g, limit, spare) && fewer <= spare
    ensures Cap(g, limit, fewer)
  {
    forall k | k != "" ensures Room(g, limit, fewer, k) {
      assert Room(g, limit, spare, k);
    }
  }

  // Nothing that takes no slot can break the cap.
  lemma FewerSlots(g: Gate, n: Gate, limit: nat, spare: set<Alias>)
    requires Cap(g, limit, spare)
    requires n.aliases == g.aliases && n.founded == g.founded
    requires forall id | id in n.requests && n.requests[id].key != "" :: id in g.requests && g.requests[id].key == n.requests[id].key
    ensures Cap(n, limit, spare)
  {
    forall k | k != "" ensures Room(n, limit, spare, k) {
      assert Room(g, limit, spare, k);
      assert Holders(n.requests, k) <= Holders(g.requests, k);
      SetSize(Holders(n.requests, k), Holders(g.requests, k));
      assert Founders(n, k) == Founders(g, k);
    }
  }

  // Taking a promised slot.
  lemma TakeSlot(g: Gate, n: Gate, id: RequestId, limit: nat, spare: set<Alias>, a: Alias)
    requires Cap(g, limit, spare) && a in spare
    requires id in g.requests ==> g.requests[id].key == ""
    requires id in n.requests && n.requests[id].key == Canon(g.aliases, a)
    requires n.aliases == g.aliases && n.founded == g.founded
    requires n.requests.Keys == g.requests.Keys + {id}
    requires forall x | x in g.requests && x != id :: n.requests[x].key == g.requests[x].key
    ensures Cap(n, limit, {})
  {
    assert Extra(g.aliases, spare, {Canon(g.aliases, a)}) == 1;
    forall k | k != "" ensures Room(n, limit, {}, k) {
      assert Room(g, limit, spare, k);
      assert Founders(n, k) == Founders(g, k);
      CountsAfterTaking(g.requests, n.requests, id, k);
    }
  }

  lemma CountsAfterTaking(before: Requests, after: Requests, id: RequestId, k: Key)
    requires id in before ==> before[id].key == ""
    requires id in after && after.Keys == before.Keys + {id}
    requires forall x | x in before && x != id :: after[x].key == before[x].key
    requires k != ""
    ensures Count(after, k) == Count(before, k) + if after[id].key == k then 1 else 0
  {
    var held, holding := Holders(before, k), Holders(after, k);
    assert id !in held && (id in holding <==> after[id].key == k);
    forall x | x != id ensures x in holding <==> x in held {
      assert x in after.Keys <==> x in before.Keys;
    }
    OneMore(held, holding, id);
  }

  lemma SlotTaken(requests: Requests, id: RequestId, k: Key)
    requires id in requests && requests[id].key == "" && k != ""
    ensures Count(requests[id := requests[id].(key := k)], k) == Count(requests, k) + 1
  {
    assert requests[id := requests[id].(key := k)].Keys == requests.Keys + {id};
    CountsAfterTaking(requests, requests[id := requests[id].(key := k)], id, k);
  }

  lemma OneMore<T>(a: set<T>, b: set<T>, x: T)
    requires x !in a && forall y | y != x :: y in a <==> y in b
    ensures |b| == |a| + if x in b then 1 else 0
  {
    assert if x in b then b == a + {x} else b == a;
  }
}
