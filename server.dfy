/** `WebSocketServer` (src/server.ts): the value cache in front of a base
    server.  `update` pushes a value to every subscribed socket only when
    the cache changes, `updateScope` reconciles every cached value inside a
    scope with a replacement list, and `_handleSocket` pushes the cached
    value to a socket that has just attached to a group. */
module Server {
  import opened Targets
  import opened Directory
  import opened Observers
  import opened Cache
  import opened Base

  class WebSocketServer {
    var values: Values
    const base: WebSocketBaseServer
    const hash: Hash

    predicate Valid()
      reads this
    {
      CacheValid(values, hash)
    }

    /** The constructor: an empty cache, and a fresh base server on which
        this server's `_handleSocket`, registered as `handler`, is the only
        socket handler. */
    constructor (hash: Hash, handler: HandlerId)
      ensures Valid() && values == map[] && this.hash == hash
      ensures fresh(base) && base.Valid() && base.State() == Dir(map[], map[])
      ensures base.socketHandlers == [handler] && base.subscriptionHandlers == []
      ensures base.fired == [] && base.emitted == [] && base.fetcher.None?
    {
      var b := new WebSocketBaseServer();
      b.HandleSocket(handler);
      base := b;
      this.hash := hash;
      values := map[];
    }

    /** `update`: `changed` is its `isChanged`.  The cache moves to the
        updated cache, and the base server broadcasts the value iff the
        update changed something. */
    method Update(target: Target, value: Value) returns (changed: bool)
      requires Valid()
      modifies this`values, base`emitted
      ensures Valid()
      ensures changed == Changed(old(values), hash, target, value)
      ensures values == Updated(old(values), hash, target, value)
      ensures !changed ==> base.emitted == old(base.emitted)
      ensures changed ==>
        && |old(base.emitted)| <= |base.emitted| && base.emitted[..|old(base.emitted)|] == old(base.emitted)
        && Enumerates(base.emitted[|old(base.emitted)|..], Recipients(base.State(), target, value))
    {
      UpdatePreservesValid(values, hash, target, value);
      var id := MakeKey(target);
      changed := false;
      if value == Null {
        if id in values {
          values := values - {id};
          changed := true;
        }
      } else {
        var h := hash(value);
        if id in values {
          if values[id].hash != h {
            changed := true;
          }
        } else {
          changed := true;
        }
        if changed {
          values := values[id := TargetInfo(target, h, value)];
        }
      }
      if changed {
        base.NotifyAll(target, value);
      }
    }

    /** `updateScope`: build the new items keyed by completed target, then
        the diff (a null update for every entry of the scope, visited in the
        order `order` gives, that is not a new key, then every new item),
        then apply the diff one update at a time. */
    method UpdateScope(scope: Target, newItems: seq<Item>, order: seq<Key>)
      requires Valid()
      requires Enumerates(order, ScopeItems(values, scope).Keys)
      modifies this`values, base`emitted
      ensures Valid()
      ensures values == ApplyAll(old(values), hash, ScopeDiff(old(values), scope, newItems, order))
      ensures |old(base.emitted)| <= |base.emitted| && base.emitted[..|old(base.emitted)|] == old(base.emitted)
    {
      var dict, keys := CollectItems(scope, newItems);
      var diff := MakeDiff(ScopeItems(values, scope), dict, keys, order);
      assert diff == ScopeDiff(old(values), scope, newItems, order);
      ApplyDiff(diff);
    }

    /** The first loop of `updateScope`. */
    static method CollectItems(scope: Target, newItems: seq<Item>) returns (dict: map<Key, Item>, keys: seq<Key>)
      ensures NewItems(dict, keys) == ItemsDict(scope, newItems)
    {
      dict := map[];
      keys := [];
      for i := 0 to |newItems|
        invariant NewItems(dict, keys) == ItemsDict(scope, newItems[..i])
      {
        assert Init(newItems[..i + 1]) == newItems[..i] && Last(newItems[..i + 1]) == newItems[i];
        var target := Defaults(newItems[i].target, scope);
        var id := MakeKey(target);
        if id !in dict {
          keys := keys + [id];
        }
        dict := dict[id := Item(target, newItems[i].value)];
      }
      assert newItems[..|newItems|] == newItems;
    }

    /** The second and third loops of `updateScope`. */
    static method MakeDiff(current: Values, dict: map<Key, Item>, keys: seq<Key>, order: seq<Key>) returns (diff: seq<Item>)
      requires forall k :: k in order ==> k in current
      requires forall k :: k in keys ==> k in dict
      ensures diff == Retractions(current, dict, order) + Additions(dict, keys)
    {
      diff := [];
      for i := 0 to |order|
        invariant diff == Retractions(current, dict, order[..i])
      {
        assert Init(order[..i + 1]) == order[..i] && Last(order[..i + 1]) == order[i];
        if order[i] !in dict {
          diff := diff + [Item(current[order[i]].target, Null)];
        }
      }
      assert order[..|order|] == order;
      ghost var retractions := diff;
      for i := 0 to |keys|
        invariant diff == retractions + Additions(dict, keys[..i])
      {
        assert Init(keys[..i + 1]) == keys[..i] && Last(keys[..i + 1]) == keys[i];
        AppendAssoc(retractions, Additions(dict, keys[..i]), [dict[keys[i]]]);
        diff := diff + [dict[keys[i]]];
      }
      assert keys[..|keys|] == keys;
    }

    /** The last loop of `updateScope`: one `update` per diff entry. */
    method ApplyDiff(diff: seq<Item>)
      requires Valid()
      modifies this`values, base`emitted
      ensures Valid()
      ensures values == ApplyAll(old(values), hash, diff)
      ensures |old(base.emitted)| <= |base.emitted| && base.emitted[..|old(base.emitted)|] == old(base.emitted)
    {
      for i := 0 to |diff|
        invariant Valid()
        invariant values == ApplyAll(old(values), hash, diff[..i])
        invariant |old(base.emitted)| <= |base.emitted| && base.emitted[..|old(base.emitted)|] == old(base.emitted)
      {
        assert Init(diff[..i + 1]) == diff[..i] && Last(diff[..i + 1]) == diff[i];
        var _ := Update(diff[i].target, diff[i].value);
      }
      assert diff[..|diff|] == diff;
    }

    /** `_handleSocket`: the cached value under the global key, or null when
        there is none, is handed to `notifySocket` together with the GLOBAL
        target, which `notifySocket` looks up among the socket's local
        keys. */
    method HandleSocket(globalTarget: Target, s: SocketId, globalId: Key, localTarget: Option<Target>)
      modifies base`emitted
      ensures base.emitted == old(base.emitted) +
        NotifySocketEmits(base.State(), s, globalTarget, if globalId in values then values[globalId].value else Null)
    {
      var value := Null;
      if globalId in values {
        value := values[globalId].value;
      }
      base.NotifySocket(s, globalTarget, value);
    }
  }
}
