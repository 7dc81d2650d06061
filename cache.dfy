/** The value cache of `WebSocketServer` (src/server.ts) as values: the cache
    entries, the change test of `update`, the scope filter, and the diff
    `updateScope` builds.  The class in server.dfy holds the cache as a
    field and its methods are proved to change it as these functions say.

    `HashUtils.calculateObjectHashStr` is not part of this model: it is an
    arbitrary function `hash` from values to strings, so "unchanged" always
    means "unchanged modulo hash". */
module Cache {
  import opened Targets

  /** `TargetInfo`: one cached value with its hash. */
  datatype TargetInfo = TargetInfo(target: Target, hash: string, value: Value)

  /** `WebSocketItem`. */
  datatype Item = Item(target: Target, value: Value)

  type Values = map<Key, TargetInfo>

  type Hash = Value -> string

  /** What `update` keeps true of `_values`: every entry sits under its own
      target's key, holds a non-null value and that value's hash. */
  predicate CacheValid(values: Values, hash: Hash) {
    forall k :: k in values ==>
      MakeKey(values[k].target) == k && values[k].value != Null && values[k].hash == hash(values[k].value)
  }

  function KeyOf(item: Item): Key {
    MakeKey(item.target)
  }

  // ---------------------------------------------------------------------
  // update

  /** `isChanged` of `update`: a null value changes the cache iff an entry
      exists; any other value iff there is no entry or its hash differs. */
  predicate Changed(values: Values, hash: Hash, target: Target, value: Value) {
    var id := MakeKey(target);
    if value == Null then id in values
    else id !in values || values[id].hash != hash(value)
  }

  /** The cache after `update(target, value)`. */
  function Updated(values: Values, hash: Hash, target: Target, value: Value): Values {
    var id := MakeKey(target);
    if value == Null then values - {id}
    else if Changed(values, hash, target, value) then values[id := TargetInfo(target, hash(value), value)]
    else values
  }

  /** `update` with null removes the entry; it is a change iff the entry
      existed; no other key is touched. */
  lemma UpdateRetracts(values: Values, hash: Hash, target: Target)
    ensures var r := Updated(values, hash, target, Null);
      && MakeKey(target) !in r
      && (Changed(values, hash, target, Null) <==> MakeKey(target) in values)
      && (forall k :: k != MakeKey(target) ==> (k in r <==> k in values) && (k in r ==> r[k] == values[k]))
  {
  }

  /** `update` with a value: a change iff no entry or a different hash; on a
      change the entry becomes the new triple, otherwise the cache is
      untouched; either way the key ends up holding the value's hash. */
  lemma UpdateStores(values: Values, hash: Hash, target: Target, value: Value)
    requires value != Null
    ensures var r := Updated(values, hash, target, value); var id := MakeKey(target);
      && (Changed(values, hash, target, value) <==> id !in values || values[id].hash != hash(value))
      && (Changed(values, hash, target, value) ==> r == values[id := TargetInfo(target, hash(value), value)])
      && (!Changed(values, hash, target, value) ==> r == values)
      && id in r && r[id].hash == hash(value)
  {
  }

  /** The cache changes iff `update` reports a change, so pushes are never
      suppressed wrongly and never sent for nothing. */
  lemma ChangedIffCacheChanges(values: Values, hash: Hash, target: Target, value: Value)
    requires CacheValid(values, hash)
    ensures Changed(values, hash, target, value) <==> Updated(values, hash, target, value) != values
  {
    var id := MakeKey(target);
    if Changed(values, hash, target, value) {
      if value == Null {
        assert id !in Updated(values, hash, target, value);
      } else if id in values {
        assert Updated(values, hash, target, value)[id].hash != values[id].hash;
      } else {
        assert id in Updated(values, hash, target, value);
      }
    }
  }

  /** Repeating an update is a no-op that reports no change. */
  lemma UpdateIdempotent(values: Values, hash: Hash, target: Target, value: Value)
    ensures var r := Updated(values, hash, target, value);
      !Changed(r, hash, target, value) && Updated(r, hash, target, value) == r
  {
  }

  lemma UpdatePreservesValid(values: Values, hash: Hash, target: Target, value: Value)
    requires CacheValid(values, hash)
    ensures CacheValid(Updated(values, hash, target, value), hash)
  {
  }

  /** The entry under `k` after an update depends only on the entry under
      `k` before it. */
  lemma UpdateLocal(a: Values, b: Values, hash: Hash, target: Target, value: Value, k: Key)
    requires (k in a <==> k in b) && (k in a ==> a[k] == b[k])
    ensures var ra := Updated(a, hash, target, value); var rb := Updated(b, hash, target, value);
      (k in ra <==> k in rb) && (k in ra ==> ra[k] == rb[k])
  {
  }

  /** A sequence of `update` calls, in order. */
  function ApplyAll(values: Values, hash: Hash, diff: seq<Item>): Values
    decreases |diff|
  {
    if diff == [] then values
    else Updated(ApplyAll(values, hash, Init(diff)), hash, Last(diff).target, Last(diff).value)
  }

  lemma {:induction false} ApplyAllPreservesValid(values: Values, hash: Hash, diff: seq<Item>)
    requires CacheValid(values, hash)
    ensures CacheValid(ApplyAll(values, hash, diff), hash)
    decreases |diff|
  {
    if diff != [] {
      ApplyAllPreservesValid(values, hash, Init(diff));
      UpdatePreservesValid(ApplyAll(values, hash, Init(diff)), hash, Last(diff).target, Last(diff).value);
    }
  }

  /** A key no update of the sequence names keeps its entry. */
  lemma {:induction false} ApplyAllUntouched(values: Values, hash: Hash, diff: seq<Item>, k: Key)
    requires forall i :: 0 <= i < |diff| ==> KeyOf(diff[i]) != k
    ensures var r := ApplyAll(values, hash, diff);
      (k in r <==> k in values) && (k in values ==> r[k] == values[k])
    decreases |diff|
  {
    if diff != [] {
      ApplyAllUntouched(values, hash, Init(diff), k);
    }
  }

  /** A key exactly one update of the sequence names ends up as that one
      update alone would leave it. */
  lemma {:induction false} ApplyAllOnce(values: Values, hash: Hash, diff: seq<Item>, j: nat)
    requires j < |diff|
    requires forall i :: 0 <= i < |diff| && i != j ==> KeyOf(diff[i]) != KeyOf(diff[j])
    ensures var r := ApplyAll(values, hash, diff); var k := KeyOf(diff[j]);
      var u := Updated(values, hash, diff[j].target, diff[j].value);
      (k in r <==> k in u) && (k in r ==> r[k] == u[k])
    decreases |diff|
  {
    var k := KeyOf(diff[j]);
    var init := Init(diff);
    if j == |diff| - 1 {
      ApplyAllUntouched(values, hash, init, k);
      UpdateLocal(ApplyAll(values, hash, init), values, hash, diff[j].target, diff[j].value, k);
    } else {
      assert init[j] == diff[j];
      ApplyAllOnce(values, hash, init, j);
    }
  }

  // ---------------------------------------------------------------------
  // Scopes

  /** `_matchesScope`: every field of the scope is present in the target
      with a strictly equal value. */
  predicate MatchesScope(scope: Target, t: Target) {
    forall k :: k in scope ==> k in t && t[k] == scope[k]
  }

  /** `_scopeItems`: the cache entries whose target matches the scope. */
  function ScopeItems(values: Values, scope: Target): (r: Values)
    ensures forall k :: k in r <==> k in values && MatchesScope(scope, values[k].target)
    ensures forall k :: k in r ==> r[k] == values[k]
  {
    map k | k in values && MatchesScope(scope, values[k].target) :: values[k]
  }

  /** The empty scope matches every target, so it selects the whole cache. */
  lemma EmptyScopeSelectsAll(values: Values)
    ensures ScopeItems(values, map[]) == values
  {
  }

  /** A scope with a field the target lacks never matches, a null field
      included: strict equality tells null from undefined. */
  lemma MissingFieldNeverMatches(scope: Target, t: Target, f: string)
    requires f in scope && f !in t
    ensures !MatchesScope(scope, t)
  {
  }

  /** The target `updateScope` stores for an item: the item's own fields,
      filled in from the scope (`_.defaults`). */
  function Complete(scope: Target, item: Item): (r: Item)
    ensures forall k :: k in r.target <==> k in item.target || k in scope
    ensures forall k :: k in item.target ==> r.target[k] == item.target[k]
    ensures forall k :: k in scope && k !in item.target ==> r.target[k] == scope[k]
    ensures r.value == item.value
  {
    Item(Defaults(item.target, scope), item.value)
  }

  /** A completed item lands inside its scope iff its own fields agree with
      the scope on every field they share: an item that overrides a scope
      field is stored outside that scope. */
  lemma CompletedMatchesIff(scope: Target, item: Item)
    ensures MatchesScope(scope, Complete(scope, item).target) <==>
      forall k :: k in scope && k in item.target ==> item.target[k] == scope[k]
  {
    var c := Complete(scope, item).target;
    if !MatchesScope(scope, c) {
      var k :| k in scope && !(k in c && c[k] == scope[k]);
      assert k in item.target;
    }
  }

  datatype NewItems = NewItems(dict: map<Key, Item>, keys: seq<Key>)

  /** The first loop of `updateScope`: `newItemsDict`, keyed by completed
      target, with its keys in insertion order (a key seen again keeps its
      place and takes the later item). */
  function ItemsDict(scope: Target, items: seq<Item>): (r: NewItems)
    ensures Enumerates(r.keys, r.dict.Keys)
    ensures forall k :: k in r.dict ==> KeyOf(r.dict[k]) == k
    ensures forall i :: 0 <= i < |items| ==> KeyOf(Complete(scope, items[i])) in r.dict
    decreases |items|
  {
    if items == [] then NewItems(map[], [])
    else
      var r := ItemsDict(scope, Init(items));
      var c := Complete(scope, Last(items));
      var id := KeyOf(c);
      var keys := if id in r.dict then r.keys else r.keys + [id];
      assert forall i :: 0 <= i < |items| - 1 ==> items[i] == Init(items)[i];
      NewItems(r.dict[id := c], keys)
  }

  /** The position of the first item whose completed key is `k`, or
      `|items|` when there is none. */
  function FirstAt(scope: Target, items: seq<Item>, k: Key): (r: nat)
    ensures r <= |items|
    ensures r < |items| ==> KeyOf(Complete(scope, items[r])) == k
    ensures forall i :: 0 <= i < r ==> KeyOf(Complete(scope, items[i])) != k
    decreases |items|
  {
    if items == [] then 0
    else
      var p := FirstAt(scope, Init(items), k);
      assert forall i :: 0 <= i < |items| - 1 ==> items[i] == Init(items)[i];
      if p < |items| - 1 then p
      else if KeyOf(Complete(scope, Last(items))) == k then |items| - 1
      else |items|
  }

  /** One more item moves no earlier first occurrence and puts the
      first occurrence of a new key at the end. */
  lemma FirstAtStep(scope: Target, items: seq<Item>, k: Key)
    requires items != []
    ensures FirstAt(scope, Init(items), k) < |items| - 1 ==>
      FirstAt(scope, items, k) == FirstAt(scope, Init(items), k)
    ensures FirstAt(scope, Init(items), k) == |items| - 1 ==>
      FirstAt(scope, items, k) == if KeyOf(Complete(scope, Last(items))) == k then |items| - 1 else |items|
  {
  }

  /** One more item adds its key, when new, at the end of the key list. */
  lemma ItemsDictStep(scope: Target, items: seq<Item>)
    requires items != []
    ensures var r0 := ItemsDict(scope, Init(items));
      var r := ItemsDict(scope, items);
      var id := KeyOf(Complete(scope, Last(items)));
      && r.dict.Keys == r0.dict.Keys + {id}
      && r.keys == if id in r0.dict then r0.keys else r0.keys + [id]
  {
  }

  /** A key is in `newItemsDict` exactly when some item completes to it. */
  lemma {:induction false} ItemsDictFirstMembers(scope: Target, items: seq<Item>, k: Key)
    ensures k in ItemsDict(scope, items).dict <==> FirstAt(scope, items, k) < |items|
    decreases |items|
  {
    if items != [] {
      ItemsDictFirstMembers(scope, Init(items), k);
      ItemsDictStep(scope, items);
      FirstAtStep(scope, items, k);
    }
  }

  /** The inductive step of `ItemsDictFirstOrder`, stated on the key lists
      alone: `keys0` lists the first occurrences in `Init(items)` in order,
      and `keys` is `keys0` with the last item's key appended when new. */
  lemma FirstOrderStep(scope: Target, items: seq<Item>, keys0: seq<Key>, keys: seq<Key>, i: int, j: int)
    requires items != []
    requires forall k :: k in keys0 ==> FirstAt(scope, Init(items), k) < |items| - 1
    requires forall a, b :: 0 <= a < b < |keys0| ==>
      FirstAt(scope, Init(items), keys0[a]) < FirstAt(scope, Init(items), keys0[b])
    requires keys == keys0 || (keys == keys0 + [KeyOf(Complete(scope, Last(items)))]
      && FirstAt(scope, Init(items), KeyOf(Complete(scope, Last(items)))) == |items| - 1)
    requires 0 <= i < j < |keys|
    ensures FirstAt(scope, items, keys[i]) < FirstAt(scope, items, keys[j])
  {
    var a := keys0[i];
    assert keys[i] == a && a in keys0;
    FirstAtStep(scope, items, a);
    if j < |keys0| {
      var b := keys0[j];
      assert keys[j] == b && b in keys0;
      FirstAtStep(scope, items, b);
    } else {
      FirstAtStep(scope, items, keys[j]);
    }
  }

  /** The keys of `newItemsDict` are those of the items, in the order of
      their first occurrence. */
  lemma {:induction false} ItemsDictFirstOrder(scope: Target, items: seq<Item>)
    ensures var r := ItemsDict(scope, items);
      forall i, j :: 0 <= i < j < |r.keys| ==> FirstAt(scope, items, r.keys[i]) < FirstAt(scope, items, r.keys[j])
    decreases |items|
  {
    if items != [] {
      var init := Init(items);
      ItemsDictFirstOrder(scope, init);
      ItemsDictStep(scope, items);
      var r0 := ItemsDict(scope, init);
      var r := ItemsDict(scope, items);
      var id := KeyOf(Complete(scope, Last(items)));
      forall k | k in r0.keys ensures FirstAt(scope, init, k) < |items| - 1 {
        ItemsDictFirstMembers(scope, init, k);
      }
      if id !in r0.dict {
        ItemsDictFirstMembers(scope, init, id);
      }
      forall i, j | 0 <= i < j < |r.keys| ensures FirstAt(scope, items, r.keys[i]) < FirstAt(scope, items, r.keys[j]) {
        FirstOrderStep(scope, items, r0.keys, r.keys, i, j);
      }
    }
  }

  /** A later item with the same completed key replaces an earlier one: the
      dictionary holds an item iff no later item has its key. */
  lemma {:induction false} ItemsDictLastWins(scope: Target, items: seq<Item>, i: nat)
    requires i < |items|
    requires forall j :: i < j < |items| ==> KeyOf(Complete(scope, items[j])) != KeyOf(Complete(scope, items[i]))
    ensures ItemsDict(scope, items).dict[KeyOf(Complete(scope, items[i]))] == Complete(scope, items[i])
    decreases |items|
  {
    if i < |items| - 1 {
      assert Init(items)[i] == items[i];
      assert forall j :: i < j < |items| - 1 ==> Init(items)[j] == items[j];
      ItemsDictLastWins(scope, Init(items), i);
    }
  }

  /** The second loop of `updateScope`: a null update for each current
      entry, in the order `order` visits them, whose key is not new. */
  function Retractions(current: Values, dict: map<Key, Item>, order: seq<Key>): (r: seq<Item>)
    requires forall k :: k in order ==> k in current
    decreases |order|
  {
    if order == [] then []
    else
      var r := Retractions(current, dict, Init(order));
      var k := Last(order);
      if k !in dict then r + [Item(current[k].target, Null)] else r
  }

  /** The keys the retractions name, in order. */
  function RetractedKeys(dict: map<Key, Item>, order: seq<Key>): (r: seq<Key>)
    ensures forall k :: k in r <==> k in order && k !in dict
    decreases |order|
  {
    if order == [] then []
    else
      var r := RetractedKeys(dict, Init(order));
      assert forall k :: k in order <==> k in Init(order) || k == Last(order);
      if Last(order) !in dict then r + [Last(order)] else r
  }

  /** Each retraction is a null update of the entry under the matching
      retracted key. */
  lemma {:induction false} RetractionsAreNullUpdates(current: Values, dict: map<Key, Item>, order: seq<Key>)
    requires forall k :: k in order ==> k in current
    ensures var r := Retractions(current, dict, order); var ks := RetractedKeys(dict, order);
      |r| == |ks| && forall i :: 0 <= i < |r| ==> r[i] == Item(current[ks[i]].target, Null)
    decreases |order|
  {
    if order != [] {
      RetractionsAreNullUpdates(current, dict, Init(order));
    }
  }

  lemma {:induction false} RetractedKeysNoDuplicates(dict: map<Key, Item>, order: seq<Key>)
    requires NoDuplicates(order)
    ensures NoDuplicates(RetractedKeys(dict, order))
    decreases |order|
  {
    if order != [] {
      var init := Init(order);
      assert NoDuplicates(init) by {
        forall i, j | 0 <= i < j < |init| ensures init[i] != init[j] { assert init[i] == order[i] && init[j] == order[j]; }
      }
      assert Last(order) !in init by {
        forall i | 0 <= i < |init| ensures init[i] != Last(order) { assert init[i] == order[i]; }
      }
      RetractedKeysNoDuplicates(dict, init);
    }
  }

  /** The third loop of `updateScope`: every new item, in key order. */
  function Additions(dict: map<Key, Item>, keys: seq<Key>): (r: seq<Item>)
    requires forall k :: k in keys ==> k in dict
    ensures |r| == |keys| && forall i :: 0 <= i < |r| ==> r[i] == dict[keys[i]]
    decreases |keys|
  {
    if keys == [] then []
    else Additions(dict, Init(keys)) + [dict[Last(keys)]]
  }

  /** The `diff` of `updateScope`: the retractions first, then the new
      items. */
  function ScopeDiff(values: Values, scope: Target, items: seq<Item>, order: seq<Key>): seq<Item>
    requires forall k :: k in order ==> k in ScopeItems(values, scope)
  {
    var nd := ItemsDict(scope, items);
    Retractions(ScopeItems(values, scope), nd.dict, order) + Additions(nd.dict, nd.keys)
  }

  /** `ks` lists the key of every update of `diff`, in order. */
  predicate KeysAt(diff: seq<Item>, ks: seq<Key>) {
    |diff| == |ks| && forall i :: 0 <= i < |diff| ==> KeyOf(diff[i]) == ks[i]
  }

  /** The first `n` updates of `diff` are null updates. */
  predicate NullUpdates(diff: seq<Item>, n: nat) {
    n <= |diff| && forall i :: 0 <= i < n ==> diff[i].value == Null
  }

  /** From position `off` on, `diff` holds the items of `dict` under
      `keys`, in order. */
  predicate AdditionsAt(diff: seq<Item>, off: nat, keys: seq<Key>, dict: map<Key, Item>) {
    off + |keys| <= |diff| && forall i :: 0 <= i < |keys| ==> keys[i] in dict && diff[off + i] == dict[keys[i]]
  }

  /** Two runs of updates naming distinct keys, the first run's keys
      disjoint from the second's, name distinct keys throughout. */
  lemma ConcatLayout(rs: seq<Item>, adds: seq<Item>, ks: seq<Key>, keys: seq<Key>, dict: map<Key, Item>)
    requires KeysAt(rs, ks) && KeysAt(adds, keys)
    requires NoDuplicates(ks) && NoDuplicates(keys)
    requires forall k :: k in ks ==> k !in keys
    requires NullUpdates(rs, |rs|) && AdditionsAt(adds, 0, keys, dict)
    ensures KeysAt(rs + adds, ks + keys) && NoDuplicates(ks + keys)
    ensures NullUpdates(rs + adds, |ks|) && AdditionsAt(rs + adds, |ks|, keys, dict)
  {
    var all := ks + keys;
    assert forall i :: 0 <= i < |rs| ==> (rs + adds)[i] == rs[i];
    assert forall i :: 0 <= i < |adds| ==> (rs + adds)[|rs| + i] == adds[i];
    forall i | 0 <= i < |rs + adds| ensures KeyOf((rs + adds)[i]) == all[i] {
      if i < |rs| { assert (rs + adds)[i] == rs[i]; } else { assert (rs + adds)[i] == adds[i - |rs|]; }
    }
    forall i, j | 0 <= i < j < |all| ensures all[i] != all[j] {
      if j < |ks| {
        assert all[i] == ks[i] && all[j] == ks[j];
      } else if i >= |ks| {
        assert all[i] == keys[i - |ks|] && all[j] == keys[j - |ks|];
      } else {
        assert all[i] == ks[i] && ks[i] in ks && all[j] == keys[j - |ks|] && keys[j - |ks|] in keys;
      }
    }
  }

  /** The facts about the diff the outcome lemmas need: the retracted keys
      then the new keys name its updates, no key twice; the retractions
      are null updates and the additions the new items. */
  lemma DiffLayout(values: Values, hash: Hash, scope: Target, items: seq<Item>, order: seq<Key>)
    requires CacheValid(values, hash)
    requires Enumerates(order, ScopeItems(values, scope).Keys)
    ensures var nd := ItemsDict(scope, items); var ks := RetractedKeys(nd.dict, order);
      var diff := ScopeDiff(values, scope, items, order);
      && KeysAt(diff, ks + nd.keys) && NoDuplicates(ks + nd.keys)
      && NullUpdates(diff, |ks|) && AdditionsAt(diff, |ks|, nd.keys, nd.dict)
  {
    var nd := ItemsDict(scope, items);
    var current := ScopeItems(values, scope);
    var ks := RetractedKeys(nd.dict, order);
    var rs := Retractions(current, nd.dict, order);
    var adds := Additions(nd.dict, nd.keys);
    RetractionsAreNullUpdates(current, nd.dict, order);
    RetractedKeysNoDuplicates(nd.dict, order);
    assert KeysAt(rs, ks) by {
      forall i | 0 <= i < |rs| ensures KeyOf(rs[i]) == ks[i] {
        assert ks[i] in ks;
        assert ks[i] in values;
      }
    }
    assert NullUpdates(rs, |rs|);
    assert KeysAt(adds, nd.keys) && AdditionsAt(adds, 0, nd.keys, nd.dict) by {
      forall i | 0 <= i < |adds| ensures nd.keys[i] in nd.dict && KeyOf(adds[i]) == nd.keys[i] {
        assert nd.keys[i] in nd.keys;
      }
    }
    assert forall k :: k in ks ==> k !in nd.keys;
    ConcatLayout(rs, adds, ks, nd.keys, nd.dict);
    assert ScopeDiff(values, scope, items, order) == rs + adds;
  }

  /** What the update `it` of key `k` leaves in `r`, starting from
      `values`: a null update removes the entry; any other stores an entry
      under `k` with its value's hash, and the new value itself when the
      hash differs from the cached one. */
  predicate Outcome(r: Values, values: Values, hash: Hash, k: Key, it: Item) {
    && (it.value == Null ==> k !in r)
    && (it.value != Null ==> k in r && r[k].hash == hash(it.value) && MakeKey(r[k].target) == k)
    && (it.value != Null && (k !in values || values[k].hash != hash(it.value)) ==> r[k] == TargetInfo(it.target, hash(it.value), it.value))
  }

  /** The outcome for the key of an update that is the only one naming
      that key. */
  lemma OutcomeAt(values: Values, hash: Hash, diff: seq<Item>, all: seq<Key>, j: nat)
    requires CacheValid(values, hash)
    requires KeysAt(diff, all) && NoDuplicates(all)
    requires j < |diff|
    ensures Outcome(ApplyAll(values, hash, diff), values, hash, all[j], diff[j])
  {
    forall i | 0 <= i < |diff| && i != j ensures KeyOf(diff[i]) != KeyOf(diff[j]) {
      if i < j { assert all[i] != all[j]; } else { assert all[j] != all[i]; }
    }
    ApplyAllOnce(values, hash, diff, j);
    var it := diff[j];
    if it.value == Null { UpdateRetracts(values, hash, it.target); } else { UpdateStores(values, hash, it.target, it.value); }
  }

  /** A key no update names keeps its entry, or its absence. */
  lemma OutcomeAbsent(values: Values, hash: Hash, diff: seq<Item>, all: seq<Key>, k: Key)
    requires KeysAt(diff, all) && k !in all
    ensures var r := ApplyAll(values, hash, diff);
      (k in r <==> k in values) && (k in values ==> r[k] == values[k])
  {
    forall i | 0 <= i < |diff| ensures KeyOf(diff[i]) != k {
      assert all[i] in all;
    }
    ApplyAllUntouched(values, hash, diff, k);
  }

  /** A new item ends up cached with its value's hash, or absent when its
      value is null; a changed one holds the new value itself. */
  lemma OutcomeNew(values: Values, hash: Hash, scope: Target, items: seq<Item>, order: seq<Key>, k: Key)
    requires CacheValid(values, hash)
    requires Enumerates(order, ScopeItems(values, scope).Keys)
    requires k in ItemsDict(scope, items).dict
    ensures Outcome(ApplyAll(values, hash, ScopeDiff(values, scope, items, order)), values, hash, k, ItemsDict(scope, items).dict[k])
  {
    var nd := ItemsDict(scope, items);
    var ks := RetractedKeys(nd.dict, order);
    DiffLayout(values, hash, scope, items, order);
    assert k in nd.keys;
    OutcomeAdded(values, hash, ScopeDiff(values, scope, items, order), ks, nd.keys, nd.dict, k);
  }

  /** `OutcomeAt` for an addition, located by its key. */
  lemma OutcomeAdded(values: Values, hash: Hash, diff: seq<Item>, ks: seq<Key>, keys: seq<Key>, dict: map<Key, Item>, k: Key)
    requires CacheValid(values, hash)
    requires KeysAt(diff, ks + keys) && NoDuplicates(ks + keys)
    requires AdditionsAt(diff, |ks|, keys, dict)
    requires k in keys
    ensures Outcome(ApplyAll(values, hash, diff), values, hash, k, dict[k])
  {
    var i :| 0 <= i < |keys| && keys[i] == k;
    var j := |ks| + i;
    assert (ks + keys)[j] == k && diff[j] == dict[k];
    OutcomeAt(values, hash, diff, ks + keys, j);
  }

  /** A matching entry that is not among the new items is gone. */
  lemma OutcomeRetracted(values: Values, hash: Hash, scope: Target, items: seq<Item>, order: seq<Key>, k: Key)
    requires CacheValid(values, hash)
    requires Enumerates(order, ScopeItems(values, scope).Keys)
    requires k in ScopeItems(values, scope) && k !in ItemsDict(scope, items).dict
    ensures k !in ApplyAll(values, hash, ScopeDiff(values, scope, items, order))
  {
    var nd := ItemsDict(scope, items);
    var ks := RetractedKeys(nd.dict, order);
    DiffLayout(values, hash, scope, items, order);
    assert k in ks;
    OutcomeRemoved(values, hash, ScopeDiff(values, scope, items, order), ks, nd.keys, k);
  }

  /** `OutcomeAt` for a retraction, located by its key. */
  lemma OutcomeRemoved(values: Values, hash: Hash, diff: seq<Item>, ks: seq<Key>, keys: seq<Key>, k: Key)
    requires CacheValid(values, hash)
    requires KeysAt(diff, ks + keys) && NoDuplicates(ks + keys) && NullUpdates(diff, |ks|)
    requires k in ks
    ensures k !in ApplyAll(values, hash, diff)
  {
    var i :| 0 <= i < |ks| && ks[i] == k;
    assert (ks + keys)[i] == k && diff[i].value == Null;
    OutcomeAt(values, hash, diff, ks + keys, i);
  }

  /** Every other entry is left alone. */
  lemma OutcomeOther(values: Values, hash: Hash, scope: Target, items: seq<Item>, order: seq<Key>, k: Key)
    requires CacheValid(values, hash)
    requires Enumerates(order, ScopeItems(values, scope).Keys)
    requires k !in ScopeItems(values, scope) && k !in ItemsDict(scope, items).dict
    ensures var r := ApplyAll(values, hash, ScopeDiff(values, scope, items, order));
      (k in r <==> k in values) && (k in values ==> r[k] == values[k])
  {
    var nd := ItemsDict(scope, items);
    var ks := RetractedKeys(nd.dict, order);
    DiffLayout(values, hash, scope, items, order);
    assert k !in order && k !in nd.keys;
    assert k !in ks + nd.keys;
    OutcomeAbsent(values, hash, ScopeDiff(values, scope, items, order), ks + nd.keys, k);
  }

  /** After `updateScope` the scope selects exactly the new items whose
      value is not null and whose completed target lies inside the scope. */
  lemma ScopeAfterUpdate(values: Values, hash: Hash, scope: Target, items: seq<Item>, order: seq<Key>)
    requires CacheValid(values, hash)
    requires Enumerates(order, ScopeItems(values, scope).Keys)
    ensures var r := ApplyAll(values, hash, ScopeDiff(values, scope, items, order)); var nd := ItemsDict(scope, items);
      forall k :: k in ScopeItems(r, scope) <==> k in nd.dict && nd.dict[k].value != Null && MatchesScope(scope, k)
  {
    var r := ApplyAll(values, hash, ScopeDiff(values, scope, items, order));
    var nd := ItemsDict(scope, items);
    ApplyAllPreservesValid(values, hash, ScopeDiff(values, scope, items, order));
    forall k ensures k in ScopeItems(r, scope) <==> k in nd.dict && nd.dict[k].value != Null && MatchesScope(scope, k) {
      if k in nd.dict {
        OutcomeNew(values, hash, scope, items, order, k);
      } else if k in ScopeItems(values, scope) {
        OutcomeRetracted(values, hash, scope, items, order, k);
      } else {
        OutcomeOther(values, hash, scope, items, order, k);
      }
    }
  }
}
