/**
 Credential identity in the concurrency gate (keyLocked in concurrency.go): a flat map
 from alias to key, merged online, that is exactly connectivity of the supplied lists.
 */
module CredentialAliases {
  import Text

  type Alias = string
  type Key = string
  type AliasMap = map<Alias, Key>

  // A missing alias reads as the empty key.
  function Canon(m: AliasMap, a: Alias): Key {
    if a in m then m[a] else ""
  }

  // The smallest key among the aliases already known, starting from `best`.
  function BestKey(m: AliasMap, list: seq<Alias>, best: Key): Key {
    if list == [] then best
    else
      var existing := Canon(m, list[0]);
      BestKey(m, list[1..], if existing != "" && (best == "" || Text.Less(existing, best)) then existing else best)
  }

  function ChosenKey(m: AliasMap, list: seq<Alias>): Key {
    var best := BestKey(m, list, "");
    if best == "" && list != [] then list[0] else best
  }

  // Keys that the call merges into the chosen one.
  function OldKeys(m: AliasMap, list: seq<Alias>, key: Key): set<Key> {
    set a | a in list && Canon(m, a) != "" && Canon(m, a) != key :: Canon(m, a)
  }

  function Learn(m: AliasMap, list: seq<Alias>): AliasMap {
    var key := ChosenKey(m, list);
    if key == "" then m
    else
      var merged := OldKeys(m, list, key);
      map a | a in m.Keys + (set a | a in list) :: if a in list || m[a] in merged then key else m[a]
  }

  // Does learning this list merge two keys that are already in use?
  predicate Merges(m: AliasMap, list: seq<Alias>) {
    OldKeys(m, list, ChosenKey(m, list)) != {}
  }

  // What every caller supplies: namespaced aliases, at least one.
  predicate AliasList(list: seq<Alias>) {
    list != [] && forall a <- list :: a != ""
  }

  ghost predicate Idempotent(m: AliasMap) {
    forall a | a in m :: m[a] != "" && m[a] in m && m[m[a]] == m[a]
  }

  lemma {:induction false} BestKeyIsKnown(m: AliasMap, list: seq<Alias>, best: Key)
    ensures var k := BestKey(m, list, best);
            k == best || (k != "" && exists a <- list :: Canon(m, a) == k)
    ensures best != "" ==> BestKey(m, list, best) != ""
    ensures BestKey(m, list, best) == "" ==> forall a <- list :: Canon(m, a) == ""
    decreases list
  {
    if list != [] {
      var existing := Canon(m, list[0]);
      var next := if existing != "" && (best == "" || Text.Less(existing, best)) then existing else best;
      BestKeyIsKnown(m, list[1..], next);
    }
  }

  // No alias of the list has a smaller key than the chosen one.
  lemma {:induction false} BestKeyIsLeast(m: AliasMap, list: seq<Alias>, best: Key, a: Alias)
    requires (a in list && Canon(m, a) != "") || (best != "" && Canon(m, a) == best)
    ensures !Text.Less(Canon(m, a), BestKey(m, list, best))
    decreases list
  {
    if list == [] {
      Text.Irreflexive(best);
    } else {
      var existing := Canon(m, list[0]);
      var next := if existing != "" && (best == "" || Text.Less(existing, best)) then existing else best;
      if a in list[1..] && Canon(m, a) != "" {
        BestKeyIsLeast(m, list[1..], next, a);
      } else if Canon(m, a) == next {
        BestKeyIsLeast(m, list[1..], next, a);
      } else {
        // `next` is the smaller of the two keys seen so far
        Text.Total(Canon(m, a), next);
        BestKeyBelow(m, list[1..], next);
        var least := BestKey(m, list[1..], next);
        if least != next {
          Text.Transitive(least, next, Canon(m, a));
        }
        if Text.Less(Canon(m, a), least) {
          Text.Transitive(least, Canon(m, a), least);
          Text.Irreflexive(least);
        }
      }
    }
  }

  lemma {:induction false} BestKeyBelow(m: AliasMap, list: seq<Alias>, best: Key)
    requires best != ""
    ensures BestKey(m, list, best) == best || Text.Less(BestKey(m, list, best), best)
    decreases list
  {
    if list != [] {
      var existing := Canon(m, list[0]);
      if existing != "" && Text.Less(existing, best) {
        BestKeyBelow(m, list[1..], existing);
        if BestKey(m, list[1..], existing) != existing {
          Text.Transitive(BestKey(m, list[1..], existing), existing, best);
        }
      } else {
        BestKeyBelow(m, list[1..], best);
      }
    }
  }

  // The chosen key is canonical already, or it is a new alias of the list.
  lemma ChosenKeyCases(m: AliasMap, list: seq<Alias>)
    requires AliasList(list) && Idempotent(m)
    ensures var k := ChosenKey(m, list);
            && k != ""
            && ((k in m && m[k] == k && exists a <- list :: Canon(m, a) == k)
                || (k == list[0] && forall a <- list :: a !in m))
  {
    BestKeyIsKnown(m, list, "");
    assert list[0] in list;
    if BestKey(m, list, "") == "" {
      forall a | a in list ensures a !in m {
        assert Canon(m, a) == "";
      }
    }
  }

  /** One call: the map stays idempotent, every supplied alias gets the returned
      key, and a key that was not merged keeps all its aliases. */
  lemma LearnKeepsIdempotent(m: AliasMap, list: seq<Alias>)
    requires AliasList(list) && Idempotent(m)
    ensures Idempotent(Learn(m, list))
    ensures forall a <- list :: Canon(Learn(m, list), a) == ChosenKey(m, list)
    ensures forall a | a in m :: Canon(Learn(m, list), a) == if m[a] in OldKeys(m, list, ChosenKey(m, list)) then ChosenKey(m, list) else m[a]
    ensures Learn(m, list).Keys == m.Keys + set a | a in list
  {
    ChosenKeyCases(m, list);
    var k := ChosenKey(m, list);
    var merged := OldKeys(m, list, k);
    var n := Learn(m, list);
    assert k in n && n[k] == k;
    forall a | a in m && a in list ensures m[a] in merged || m[a] == k {
      assert Canon(m, a) == m[a];
    }
    forall a | a in n ensures n[a] != "" && n[a] in n && n[n[a]] == n[a] {
      if n[a] != k {
        assert a in m && n[a] == m[a];
      }
    }
  }

  // ------------------------------------------------------------ connectivity

  function LearnAll(calls: seq<seq<Alias>>): AliasMap
    decreases |calls|
  {
    if calls == [] then map[] else Learn(LearnAll(calls[..|calls| - 1]), calls[|calls| - 1])
  }

  ghost predicate Linked(calls: seq<seq<Alias>>, a: Alias, b: Alias) {
    exists i | 0 <= i < |calls| :: a in calls[i] && b in calls[i]
  }

  // A chain of supplied lists, each sharing an alias with the next.
  ghost predicate Chain(calls: seq<seq<Alias>>, path: seq<Alias>) {
    path != [] && forall i | 0 <= i < |path| - 1 :: Linked(calls, path[i], path[i + 1])
  }

  ghost predicate Connected(calls: seq<seq<Alias>>, a: Alias, b: Alias) {
    exists path :: Chain(calls, path) && path[0] == a && path[|path| - 1] == b
  }

  lemma LinkedIsConnected(calls: seq<seq<Alias>>, a: Alias, b: Alias)
    requires Linked(calls, a, b)
    ensures Connected(calls, a, b)
  {
    assert Chain(calls, [a, b]);
  }

  lemma ConnectedTrans(calls: seq<seq<Alias>>, a: Alias, b: Alias, c: Alias)
    requires Connected(calls, a, b) && Connected(calls, b, c)
    ensures Connected(calls, a, c)
  {
    var p :| Chain(calls, p) && p[0] == a && p[|p| - 1] == b;
    var q :| Chain(calls, q) && q[0] == b && q[|q| - 1] == c;
    var path := p + q[1..];
    forall i | 0 <= i < |path| - 1 ensures Linked(calls, path[i], path[i + 1]) {
      if i >= |p| - 1 {
        assert path[i] == q[i - (|p| - 1)] && path[i + 1] == q[i - (|p| - 1) + 1];
      }
    }
    assert Chain(calls, path) && path[0] == a && path[|path| - 1] == c;
  }

  lemma ConnectedSym(calls: seq<seq<Alias>>, a: Alias, b: Alias)
    requires Connected(calls, a, b)
    ensures Connected(calls, b, a)
  {
    var p :| Chain(calls, p) && p[0] == a && p[|p| - 1] == b;
    var back := seq(|p|, i requires 0 <= i < |p| => p[|p| - 1 - i]);
    forall i | 0 <= i < |back| - 1 ensures Linked(calls, back[i], back[i + 1]) {
      assert Linked(calls, p[|p| - 2 - i], p[|p| - 1 - i]);
    }
    assert Chain(calls, back);
  }

  lemma LinkedMore(calls: seq<seq<Alias>>, list: seq<Alias>, a: Alias, b: Alias)
    requires Linked(calls, a, b)
    ensures Linked(calls + [list], a, b)
  {
    var more := calls + [list];
    var j :| 0 <= j < |calls| && a in calls[j] && b in calls[j];
    assert more[j] == calls[j];
    assert 0 <= j < |more| && a in more[j] && b in more[j];
  }

  lemma ConnectedMore(calls: seq<seq<Alias>>, list: seq<Alias>, a: Alias, b: Alias)
    requires Connected(calls, a, b)
    ensures Connected(calls + [list], a, b)
  {
    var p :| Chain(calls, p) && p[0] == a && p[|p| - 1] == b;
    forall i | 0 <= i < |p| - 1 ensures Linked(calls + [list], p[i], p[i + 1]) {
      assert Linked(calls, p[i], p[i + 1]);
      LinkedMore(calls, list, p[i], p[i + 1]);
    }
    assert Chain(calls + [list], p);
  }

  lemma LastLinked(calls: seq<seq<Alias>>, list: seq<Alias>, a: Alias, b: Alias)
    requires a in list && b in list
    ensures Connected(calls + [list], a, b)
  {
    assert (calls + [list])[|calls|] == list;
    assert Linked(calls + [list], a, b);
    LinkedIsConnected(calls + [list], a, b);
  }

  // Every alias is connected to the key it maps to.
  lemma {:induction false} KeysAreConnected(calls: seq<seq<Alias>>, a: Alias)
    requires forall list <- calls :: AliasList(list)
    requires a in LearnAll(calls)
    ensures Idempotent(LearnAll(calls)) && Connected(calls, a, LearnAll(calls)[a])
    decreases |calls|
  {
    var prior, list := calls[..|calls| - 1], calls[|calls| - 1];
    var m := LearnAll(prior);
    AllIdempotent(prior);
    ChosenKeyCases(m, list);
    LearnKeepsIdempotent(m, list);
    assert prior + [list] == calls;
    var k := ChosenKey(m, list);
    // the chosen key is connected to some alias of the list
    var x :| x in list && (x == k || Canon(m, x) == k);
    if x != k {
      KeysAreConnected(prior, x);
      ConnectedMore(prior, list, x, k);
    } else {
      LastLinked(prior, list, x, k);
    }
    if a in list {
      LastLinked(prior, list, a, x);
      ConnectedTrans(calls, a, x, k);
    } else {
      KeysAreConnected(prior, a);
      ConnectedMore(prior, list, a, m[a]);
      if m[a] in OldKeys(m, list, k) {
        var y :| y in list && Canon(m, y) == m[a];
        KeysAreConnected(prior, y);
        ConnectedMore(prior, list, y, m[a]);
        ConnectedSym(calls, y, m[a]);
        ConnectedTrans(calls, a, m[a], y);
        LastLinked(prior, list, y, x);
        ConnectedTrans(calls, a, y, x);
        ConnectedTrans(calls, a, x, k);
      }
    }
  }

  lemma {:induction false} AllIdempotent(calls: seq<seq<Alias>>)
    requires forall list <- calls :: AliasList(list)
    ensures Idempotent(LearnAll(calls))
    decreases |calls|
  {
    if calls != [] {
      var prior, list := calls[..|calls| - 1], calls[|calls| - 1];
      AllIdempotent(prior);
      LearnKeepsIdempotent(LearnAll(prior), list);
    }
  }

  /** The map knows exactly the aliases that were ever supplied. */
  lemma {:induction false} KnownIffSupplied(calls: seq<seq<Alias>>, a: Alias)
    requires forall list <- calls :: AliasList(list)
    ensures a in LearnAll(calls) <==> exists i | 0 <= i < |calls| :: a in calls[i]
    decreases |calls|
  {
    if calls != [] {
      var prior, list := calls[..|calls| - 1], calls[|calls| - 1];
      AllIdempotent(prior);
      KnownIffSupplied(prior, a);
      LearnKeepsIdempotent(LearnAll(prior), list);
      if i :| 0 <= i < |calls| && a in calls[i] {
        if i < |prior| { assert a in prior[i]; }
      }
      if j :| 0 <= j < |prior| && a in prior[j] { assert a in calls[j]; }
    }
  }

  lemma SharedStays(m: AliasMap, list: seq<Alias>, a: Alias, b: Alias)
    requires AliasList(list) && Idempotent(m) && a in m && b in m && m[a] == m[b]
    ensures a in Learn(m, list) && b in Learn(m, list) && Learn(m, list)[a] == Learn(m, list)[b]
  {
    LearnKeepsIdempotent(m, list);
    assert Canon(Learn(m, list), a) == Canon(Learn(m, list), b);
  }

  // Aliases supplied together have shared a key ever since.
  lemma {:induction false} LinkedShareKey(calls: seq<seq<Alias>>, a: Alias, b: Alias)
    requires forall list <- calls :: AliasList(list)
    requires Linked(calls, a, b)
    ensures a in LearnAll(calls) && b in LearnAll(calls) && LearnAll(calls)[a] == LearnAll(calls)[b]
    decreases |calls|
  {
    var prior, list := calls[..|calls| - 1], calls[|calls| - 1];
    var m := LearnAll(prior);
    AllIdempotent(prior);
    if a in list && b in list {
      LastSharesKey(m, list, a, b);
    } else {
      var i :| 0 <= i < |calls| && a in calls[i] && b in calls[i];
      assert a in prior[i] && b in prior[i];
      LinkedShareKey(prior, a, b);
      SharedStays(m, list, a, b);
    }
  }

  lemma LastSharesKey(m: AliasMap, list: seq<Alias>, a: Alias, b: Alias)
    requires AliasList(list) && Idempotent(m) && a in list && b in list
    ensures a in Learn(m, list) && b in Learn(m, list) && Learn(m, list)[a] == Learn(m, list)[b]
  {
    LearnKeepsIdempotent(m, list);
    assert Canon(Learn(m, list), a) == ChosenKey(m, list) == Canon(Learn(m, list), b);
  }

  lemma {:induction false} ChainSharesKey(calls: seq<seq<Alias>>, path: seq<Alias>)
    requires forall list <- calls :: AliasList(list)
    requires Chain(calls, path) && path[0] in LearnAll(calls)
    ensures path[|path| - 1] in LearnAll(calls) && LearnAll(calls)[path[0]] == LearnAll(calls)[path[|path| - 1]]
    decreases |path|
  {
    if |path| > 1 {
      LinkedShareKey(calls, path[0], path[1]);
      forall i | 0 <= i < |path[1..]| - 1 ensures Linked(calls, path[1..][i], path[1..][i + 1]) {
        assert Linked(calls, path[i + 1], path[i + 2]);
      }
      ChainSharesKey(calls, path[1..]);
    }
  }

  /** Exact connectivity: after any sequence of calls the map is idempotent, knows
      exactly the supplied aliases, and gives two of them one key iff a chain of
      supplied lists connects them. */
  lemma SameKeyIffConnected(calls: seq<seq<Alias>>, a: Alias, b: Alias)
    requires forall list <- calls :: AliasList(list)
    requires a in LearnAll(calls) && b in LearnAll(calls)
    ensures Idempotent(LearnAll(calls))
    ensures LearnAll(calls)[a] == LearnAll(calls)[b] <==> Connected(calls, a, b)
  {
    AllIdempotent(calls);
    var m := LearnAll(calls);
    if m[a] == m[b] {
      KeysAreConnected(calls, a);
      KeysAreConnected(calls, b);
      ConnectedSym(calls, b, m[b]);
      ConnectedTrans(calls, a, m[a], b);
    }
    if Connected(calls, a, b) {
      var path :| Chain(calls, path) && path[0] == a && path[|path| - 1] == b;
      ChainSharesKey(calls, path);
    }
  }
}
