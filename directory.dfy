/** The subscription directory of the base server (src/base-server.ts) as
    values: the global group table, every socket's custom data, the
    transaction record, and the effect of every directory operation as a
    function from the old directory to the new one.  The class in
    base_server.dfy keeps the same maps as fields and its methods are proved
    to change them exactly as these functions say. */
module Directory {
  import opened Targets

  /** `SubscriptionMeta`: the context fields to merge in, the static extras,
      and an open payload handed unchanged to observers. */
  datatype Meta = Meta(contextFields: Option<seq<string>>, targetExtras: Option<Target>, payload: Target)

  const EmptyMeta: Meta := Meta(None, None, map[])

  /** `SocketSubscriptionInfo`: one socket's interest in one local target. */
  datatype SubInfo = SubInfo(
    meta: Meta,
    localId: Key,
    localTarget: Target,
    contextFields: Option<seq<string>>,
    targetExtras: Option<Target>,
    globalId: Option<Key>,
    globalTarget: Option<Target>)

  /** `ServerSubscriptionInfo`: one group, keyed by its global key; the
      members are socket ids (the socket objects matter only as ids). */
  datatype Group = Group(globalId: Key, globalTarget: Target, sockets: set<SocketId>)

  /** `MySocketCustomData` without the middleware `locals` bag. */
  datatype SocketData = SocketData(context: Target, localIdDict: map<Key, SubInfo>, globalIdDict: map<Key, SubInfo>)

  /** `SubscriptionTx`. */
  datatype Tx = Tx(
    meta: Meta,
    socket: SocketId,
    wasDeleted: bool,
    deletedGlobalId: Option<Key>,
    deletedGlobalTarget: Option<Target>,
    wasCreated: bool,
    localTarget: Option<Target>,
    globalId: Option<Key>,
    globalTarget: Option<Target>)

  /** The directory: `_subscriptions` and, per socket that still has custom
      data, that data. */
  datatype Dir = Dir(subscriptions: map<Key, Group>, sockets: map<SocketId, SocketData>)

  /** One `socket.emit('update', {target, value})`. */
  datatype Emit = Emit(socket: SocketId, target: Target, value: Value)

  /** What the registered meta fetcher does for one call. */
  datatype FetchOutcome = Threw | Falsy | Fetched(meta: Meta)

  type Fetcher = (Target, SocketId) -> FetchOutcome

  // ---------------------------------------------------------------------
  // Invariants

  /** A subscription record is resolved iff it has both a global key and a
      global target, and then the key is the target's key. */
  predicate WellFormedInfo(info: SubInfo) {
    && (info.globalId.Some? <==> info.globalTarget.Some?)
    && (info.globalId.Some? ==> info.globalId.value == MakeKey(info.globalTarget.value))
  }

  predicate WellFormedSocket(cd: SocketData) {
    && (forall k :: k in cd.localIdDict ==> cd.localIdDict[k].localId == k && WellFormedInfo(cd.localIdDict[k]))
    && (forall g :: g in cd.globalIdDict ==> cd.globalIdDict[g].globalId == Some(g))
  }

  /** Every group sits under its own key and has at least one member, and
      every socket's records are well formed. */
  predicate Valid(d: Dir) {
    && (forall g :: g in d.subscriptions ==>
          d.subscriptions[g].globalId == g && MakeKey(d.subscriptions[g].globalTarget) == g
          && d.subscriptions[g].sockets != {})
    && (forall s :: s in d.sockets ==> WellFormedSocket(d.sockets[s]))
  }

  // ---------------------------------------------------------------------
  // Resolution of a local target into a global target

  function Fields(info: SubInfo): seq<string> {
    info.contextFields.GetOr([])
  }

  function Extras(info: SubInfo): Target {
    info.targetExtras.GetOr(map[])
  }

  /** The loop of `_makeGlobalTarget` over the context fields: each field in
      turn is copied from the context, and the first one the context lacks
      (absent or null) makes the whole resolution fail. */
  function ApplyContext(t: Target, fields: seq<string>, ctx: Target): (r: Option<Target>)
    ensures r.None? <==> exists f :: f in fields && Missing(ctx, f)
    ensures r.Some? ==> forall k :: k in r.value <==> k in t || k in fields
    ensures r.Some? ==> forall k :: k in r.value ==> r.value[k] == if k in fields then ctx[k] else t[k]
    decreases |fields|
  {
    if fields == [] then Some(t)
    else if Missing(ctx, fields[0]) then None
    else
      var r := ApplyContext(t[fields[0] := ctx[fields[0]]], fields[1..], ctx);
      assert forall f :: f in fields <==> f == fields[0] || f in fields[1..];
      r
  }

  /** `_makeGlobalTarget`: the local target, plus every extra it lacks, with
      every context field then overwritten from the context; no target at
      all when some context field is absent or null. */
  function MakeGlobalTarget(info: SubInfo, ctx: Target): (r: Option<Target>)
    ensures r.None? <==> exists f :: f in Fields(info) && Missing(ctx, f)
    ensures r.Some? ==> forall k :: k in r.value <==> k in info.localTarget || k in Extras(info) || k in Fields(info)
    ensures r.Some? ==> forall k :: k in r.value ==>
      r.value[k] == if k in Fields(info) then ctx[k]
                    else if k in info.localTarget then info.localTarget[k]
                    else Extras(info)[k]
  {
    var t := if info.targetExtras.Some? then Defaults(info.localTarget, info.targetExtras.value) else info.localTarget;
    if info.contextFields.Some? then ApplyContext(t, info.contextFields.value, ctx) else Some(t)
  }

  /** `_fetchSubscriptionMeta`: None stands for the fetcher throwing. */
  function FetchSubscriptionMeta(fetcher: Option<Fetcher>, target: Target, s: SocketId): (r: Option<Meta>)
    ensures r.None? <==> fetcher.Some? && fetcher.value(target, s).Threw?
    ensures r == Some(EmptyMeta) <==> fetcher.None? || fetcher.value(target, s).Falsy? || fetcher.value(target, s) == Fetched(EmptyMeta)
    ensures fetcher.Some? && fetcher.value(target, s).Fetched? ==> r == Some(fetcher.value(target, s).meta)
  {
    if fetcher.None? then Some(EmptyMeta)
    else match fetcher.value(target, s)
      case Threw => None
      case Falsy => Some(EmptyMeta)
      case Fetched(m) => Some(m)
  }

  /** `_newTransaction`. */
  function NewTransaction(s: SocketId, meta: Meta): (tx: Tx)
    ensures tx.socket == s && tx.meta == meta
    ensures !tx.wasDeleted && !tx.wasCreated && tx.globalId.None? && tx.deletedGlobalTarget.None?
  {
    Tx(meta, s, false, None, None, false, None, None, None)
  }

  // ---------------------------------------------------------------------
  // Group membership

  datatype Created = Created(dir: Dir, tx: Tx)

  /** `_processCreateGlobalSubscription`: record the resolved triple in the
      transaction, point the socket's global index at the subscription,
      create the group if absent and add the socket to it. */
  function Create(d: Dir, tx: Tx, info: SubInfo): (r: Created)
    requires tx.socket in d.sockets
    requires info.globalId.Some? && info.globalTarget.Some?
  {
    var g := info.globalId.value;
    var s := tx.socket;
    var cd := d.sockets[s];
    var tx1 := tx.(localTarget := Some(info.localTarget), globalId := Some(g), globalTarget := info.globalTarget);
    var created := g !in d.subscriptions;
    var grp := if created then Group(g, info.globalTarget.value, {}) else d.subscriptions[g];
    Created(
      Dir(d.subscriptions[g := grp.(sockets := grp.sockets + {s})],
          d.sockets[s := cd.(globalIdDict := cd.globalIdDict[g := info])]),
      if created then tx1.(wasCreated := true) else tx1)
  }

  datatype Deleted = Deleted(dir: Dir, tx: Tx, info: SubInfo)

  /** `_processDeleteGlobalSubscription`: take the socket out of the group,
      drop the group (and mark the transaction) once it has no member,
      remove the global index entry and clear the subscription's global key
      and target.  The deleted target is never recorded in the transaction. */
  function Delete(d: Dir, tx: Tx, info: SubInfo): (r: Deleted)
    requires tx.socket in d.sockets
    requires info.globalId.Some?
  {
    var g := info.globalId.value;
    var s := tx.socket;
    var cd := d.sockets[s];
    var sockets' := d.sockets[s := cd.(globalIdDict := cd.globalIdDict - {g})];
    var info' := info.(globalId := None, globalTarget := None);
    if g in d.subscriptions then
      var grp := d.subscriptions[g].(sockets := d.subscriptions[g].sockets - {s});
      if grp.sockets == {} then
        Deleted(Dir(d.subscriptions - {g}, sockets'), tx.(wasDeleted := true), info')
      else
        Deleted(Dir(d.subscriptions[g := grp], sockets'), tx, info')
    else
      Deleted(Dir(d.subscriptions, sockets'), tx, info')
  }

  /** Store a subscription record under its own local key. */
  function WriteBack(d: Dir, s: SocketId, info: SubInfo): (r: Dir)
    requires s in d.sockets
  {
    var cd := d.sockets[s];
    d.(sockets := d.sockets[s := cd.(localIdDict := cd.localIdDict[info.localId := info])])
  }

  /** The subscription record that is stored under `info.localId` of `s`. */
  predicate Stored(d: Dir, s: SocketId, info: SubInfo) {
    s in d.sockets && info.localId in d.sockets[s].localIdDict && d.sockets[s].localIdDict[info.localId] == info
  }

  datatype Resolved = Resolved(dir: Dir, tx: Option<Tx>)

  /** `_handleGlobalSubscription`: re-resolve one stored subscription against
      the socket's current context.  The record is updated in place in the
      source; here the updated record is written back under its local key. */
  function Resolve(d: Dir, s: SocketId, info: SubInfo): (r: Resolved)
    requires Stored(d, s, info) && WellFormedInfo(info)
  {
    var tx := NewTransaction(s, info.meta);
    var newGlobalTarget := MakeGlobalTarget(info, d.sockets[s].context);
    if newGlobalTarget.None? then
      if info.globalTarget.Some? then
        var del := Delete(d, tx, info);
        Resolved(WriteBack(del.dir, s, del.info), Some(del.tx))
      else
        Resolved(d, None)
    else
      var g := MakeKey(newGlobalTarget.value);
      if info.globalId.Some? && g == info.globalId.value then
        Resolved(d, None)
      else
        var del := if info.globalId.Some? then Delete(d, tx, info) else Deleted(d, tx, info);
        var info' := del.info.(globalId := Some(g), globalTarget := newGlobalTarget);
        var c := Create(del.dir, del.tx, info');
        Resolved(WriteBack(c.dir, s, info'), Some(c.tx))
  }

  /** A record is resolved against context `ctx` when it holds the key and
      target `_makeGlobalTarget` gives for it, and none when that gives
      none. */
  predicate ResolvedAgainst(info: SubInfo, ctx: Target) {
    match MakeGlobalTarget(info, ctx)
    case None => info.globalId.None? && info.globalTarget.None?
    case Some(t) => info.globalId == Some(MakeKey(t)) && info.globalTarget == Some(t)
  }

  /** Two records describe the same subscription request: same local key,
      local target, meta and the copies of its fields. */
  predicate SameRequest(a: SubInfo, b: SubInfo) {
    && a.localId == b.localId && a.localTarget == b.localTarget && a.meta == b.meta
    && a.contextFields == b.contextFields && a.targetExtras == b.targetExtras
  }

  // ---------------------------------------------------------------------
  // Operations on whole sockets

  /** `_handleSubscribe` once the meta is fetched: store a fresh record
      (replacing any record for the same local target) and resolve it. */
  function Subscribe(d: Dir, s: SocketId, localTarget: Target, meta: Meta): (r: Resolved)
  {
    if s !in d.sockets then Resolved(d, None)
    else
      var info := FreshInfo(localTarget, meta);
      Resolve(WriteBack(d, s, info), s, info)
  }

  /** The record `_handleSubscribe` builds: no global key yet. */
  function FreshInfo(localTarget: Target, meta: Meta): (info: SubInfo)
    ensures WellFormedInfo(info) && info.localId == MakeKey(localTarget)
    ensures info.globalId.None? && info.globalTarget.None?
    ensures info.meta == meta && info.localTarget == localTarget
    ensures info.contextFields == meta.contextFields && info.targetExtras == meta.targetExtras
  {
    SubInfo(meta, MakeKey(localTarget), localTarget, meta.contextFields, meta.targetExtras, None, None)
  }

  /** `_handleUnsubscribe`. */
  function Unsubscribe(d: Dir, s: SocketId, localTarget: Target): (r: Resolved)
  {
    if s !in d.sockets || MakeKey(localTarget) !in d.sockets[s].localIdDict then Resolved(d, None)
    else
      var cd := d.sockets[s];
      var info := cd.localIdDict[MakeKey(localTarget)];
      var d1 := d.(sockets := d.sockets[s := cd.(localIdDict := cd.localIdDict - {info.localId})]);
      if info.globalId.Some? then
        var del := Delete(d1, NewTransaction(s, info.meta), info);
        Resolved(del.dir, Some(del.tx))
      else
        Resolved(d1, None)
  }

  /** The context assignment of `_setupContext`: replaced wholesale by the
      given object, or by `{}` when it is falsy. */
  function SetContext(d: Dir, s: SocketId, context: Option<Target>): (r: Dir)
    requires s in d.sockets
  {
    d.(sockets := d.sockets[s := d.sockets[s].(context := context.GetOr(map[]))])
  }

  datatype Batch = Batch(dir: Dir, txs: seq<Tx>)

  /** The loop of `_setupContext`: re-resolve the stored subscriptions in
      the given order, collecting every non-null transaction in order. */
  function ResolveAll(d: Dir, s: SocketId, order: seq<Key>): (r: Batch)
    requires Valid(d) && s in d.sockets
    requires forall k :: k in order ==> k in d.sockets[s].localIdDict
    ensures Valid(r.dir) && r.dir.sockets.Keys == d.sockets.Keys
    ensures r.dir.sockets[s].localIdDict.Keys == d.sockets[s].localIdDict.Keys
    ensures r.dir.sockets[s].context == d.sockets[s].context
    ensures |r.txs| <= |order|
    ensures forall i :: 0 <= i < |r.txs| ==> r.txs[i].socket == s && r.txs[i].deletedGlobalTarget.None?
    decreases |order|
  {
    if order == [] then Batch(d, [])
    else
      var b := ResolveAll(d, s, Init(order));
      var res := ResolveStored(b.dir, s, Last(order));
      Batch(res.dir, if res.tx.Some? then b.txs + [res.tx.value] else b.txs)
  }

  /** Resolve the record stored under local key `k`, with the facts the
      loops above need. */
  function ResolveStored(d: Dir, s: SocketId, k: Key): (r: Resolved)
    requires Valid(d) && s in d.sockets && k in d.sockets[s].localIdDict
    ensures Valid(r.dir) && r.dir.sockets.Keys == d.sockets.Keys
    ensures r.dir.sockets[s].localIdDict.Keys == d.sockets[s].localIdDict.Keys
    ensures r.dir.sockets[s].context == d.sockets[s].context
    ensures r.tx.Some? ==> r.tx.value.socket == s && r.tx.value.deletedGlobalTarget.None?
  {
    var info := d.sockets[s].localIdDict[k];
    ResolvePreservesValid(d, s, info);
    Resolve(d, s, info)
  }

  /** One step of `ResolveAll`: the record under the next key is stored
      and well formed, and resolving it extends the batch. */
  lemma ResolveAllStep(d: Dir, s: SocketId, order: seq<Key>, i: nat)
    requires Valid(d) && s in d.sockets
    requires forall k :: k in order ==> k in d.sockets[s].localIdDict
    requires i < |order|
    ensures var b := ResolveAll(d, s, order[..i]);
      && s in b.dir.sockets && order[i] in b.dir.sockets[s].localIdDict
      && var info := b.dir.sockets[s].localIdDict[order[i]];
      && Stored(b.dir, s, info) && WellFormedInfo(info)
      && var res := Resolve(b.dir, s, info);
      ResolveAll(d, s, order[..i + 1]) == Batch(res.dir, if res.tx.Some? then b.txs + [res.tx.value] else b.txs)
  {
    assert Init(order[..i + 1]) == order[..i] && Last(order[..i + 1]) == order[i];
    var b := ResolveAll(d, s, order[..i]);
    assert order[i] in b.dir.sockets[s].localIdDict;
    StoredOfValid(b.dir, s, order[i]);
  }

  /** The loop of `_removeAllSubscriptions` over the records `lid` it read
      before starting: every record that held a global key leaves its group
      through a fresh delete transaction. */
  function DeleteAll(d: Dir, s: SocketId, lid: map<Key, SubInfo>, order: seq<Key>): (r: Batch)
    requires Valid(d) && s in d.sockets
    requires forall k :: k in order ==> k in lid
    ensures Valid(r.dir) && r.dir.sockets.Keys == d.sockets.Keys
    ensures |r.txs| == |HeldKeys(lid, order)|
    ensures forall i :: 0 <= i < |r.txs| ==>
      r.txs[i].socket == s && r.txs[i].meta == lid[HeldKeys(lid, order)[i]].meta
      && !r.txs[i].wasCreated && r.txs[i].globalId.None? && r.txs[i].deletedGlobalTarget.None?
    decreases |order|
  {
    if order == [] then Batch(d, [])
    else
      var b := DeleteAll(d, s, lid, Init(order));
      var info := lid[Last(order)];
      if info.globalId.Some? then
        assert HeldKeys(lid, order) == HeldKeys(lid, Init(order)) + [Last(order)];
        var del := Delete(b.dir, NewTransaction(s, info.meta), info);
        DeletePreservesValid(b.dir, NewTransaction(s, info.meta), info);
        DeleteFrame(b.dir, NewTransaction(s, info.meta), info);
        Batch(del.dir, b.txs + [del.tx])
      else
        assert HeldKeys(lid, order) == HeldKeys(lid, Init(order));
        b
  }

  /** One step of `DeleteAll`. */
  lemma DeleteAllStep(d: Dir, s: SocketId, lid: map<Key, SubInfo>, order: seq<Key>, i: nat)
    requires Valid(d) && s in d.sockets
    requires forall k :: k in order ==> k in lid
    requires i < |order|
    ensures var b := DeleteAll(d, s, lid, order[..i]);
      && s in b.dir.sockets
      && var info := lid[order[i]];
      DeleteAll(d, s, lid, order[..i + 1]) ==
        if info.globalId.Some? then
          var del := Delete(b.dir, NewTransaction(s, info.meta), info);
          Batch(del.dir, b.txs + [del.tx])
        else b
  {
    assert Init(order[..i + 1]) == order[..i] && Last(order[..i + 1]) == order[i];
  }

  /** The keys, in iteration order, whose records held a global key. */
  function HeldKeys(lid: map<Key, SubInfo>, order: seq<Key>): (r: seq<Key>)
    requires forall k :: k in order ==> k in lid
    ensures forall k :: k in r <==> k in order && lid[k].globalId.Some?
    ensures |r| <= |order|
    ensures forall i :: 0 <= i < |r| ==> r[i] in lid && lid[r[i]].globalId.Some?
    decreases |order|
  {
    if order == [] then []
    else
      var ks := HeldKeys(lid, Init(order));
      assert forall k :: k in order <==> k in Init(order) || k == Last(order);
      if lid[Last(order)].globalId.Some? then ks + [Last(order)] else ks
  }

  /** `_removeAllSubscriptions`: the deletes above, then both indexes of the
      socket emptied. */
  function RemoveAllSubscriptions(d: Dir, s: SocketId, order: seq<Key>): (r: Batch)
    requires Valid(d)
    requires s in d.sockets ==> forall k :: k in order ==> k in d.sockets[s].localIdDict
    ensures Valid(r.dir) && r.dir.sockets.Keys == d.sockets.Keys
  {
    if s !in d.sockets then Batch(d, [])
    else
      var b := DeleteAll(d, s, d.sockets[s].localIdDict, order);
      var cd := b.dir.sockets[s].(localIdDict := map[], globalIdDict := map[]);
      ReplaceSocketPreservesValid(b.dir, s, cd);
      Batch(b.dir.(sockets := b.dir.sockets[s := cd]), b.txs)
  }

  /** `_handleDisconnect`: remove all subscriptions, then drop the socket's
      custom data. */
  function Disconnect(d: Dir, s: SocketId, order: seq<Key>): (r: Batch)
    requires Valid(d)
    requires s in d.sockets ==> forall k :: k in order ==> k in d.sockets[s].localIdDict
    ensures Valid(r.dir) && r.dir.sockets.Keys == d.sockets.Keys - {s}
  {
    var b := RemoveAllSubscriptions(d, s, order);
    Batch(b.dir.(sockets := b.dir.sockets - {s}), b.txs)
  }

  // ---------------------------------------------------------------------
  // Broadcast and queries

  /** What `notifyAll` sends: one update per member socket that has custom
      data and a global index entry for the key, carrying that socket's
      local target. */
  function Recipients(d: Dir, globalTarget: Target, value: Value): (r: set<Emit>)
    ensures MakeKey(globalTarget) !in d.subscriptions ==> r == {}
  {
    var g := MakeKey(globalTarget);
    if g !in d.subscriptions then {}
    else
      set s | s in d.subscriptions[g].sockets && s in d.sockets && g in d.sockets[s].globalIdDict
            :: Emit(s, d.sockets[s].globalIdDict[g].localTarget, value)
  }

  /** What `notifySocket` sends: the update goes out only when the given
      target is the key of one of the socket's local subscriptions. */
  function NotifySocketEmits(d: Dir, s: SocketId, localTarget: Target, value: Value): (r: seq<Emit>)
    ensures |r| <= 1
    ensures r != [] <==> s in d.sockets && MakeKey(localTarget) in d.sockets[s].localIdDict
    ensures r != [] ==> r[0] == Emit(s, d.sockets[s].localIdDict[MakeKey(localTarget)].localTarget, value)
  {
    if s in d.sockets && MakeKey(localTarget) in d.sockets[s].localIdDict then
      [Emit(s, d.sockets[s].localIdDict[MakeKey(localTarget)].localTarget, value)]
    else []
  }

  // ---------------------------------------------------------------------
  // Lemmas

  lemma CreatePreservesValid(d: Dir, tx: Tx, info: SubInfo)
    requires Valid(d) && tx.socket in d.sockets
    requires WellFormedInfo(info) && info.globalId.Some?
    ensures Valid(Create(d, tx, info).dir)
    ensures Create(d, tx, info).dir.sockets.Keys == d.sockets.Keys
    ensures forall s :: s in d.sockets ==>
      Create(d, tx, info).dir.sockets[s].localIdDict == d.sockets[s].localIdDict
      && Create(d, tx, info).dir.sockets[s].context == d.sockets[s].context
  {
  }

  lemma DeletePreservesValid(d: Dir, tx: Tx, info: SubInfo)
    requires Valid(d) && tx.socket in d.sockets && info.globalId.Some?
    ensures Valid(Delete(d, tx, info).dir)
  {
    var g := info.globalId.value;
    var r := Delete(d, tx, info);
    if g in d.subscriptions {
      var grp := d.subscriptions[g].(sockets := d.subscriptions[g].sockets - {tx.socket});
      if grp.sockets == {} {
        assert r.dir.subscriptions == d.subscriptions - {g};
      } else {
        assert r.dir.subscriptions == d.subscriptions[g := grp];
      }
    }
  }

  lemma DeleteFrame(d: Dir, tx: Tx, info: SubInfo)
    requires tx.socket in d.sockets && info.globalId.Some?
    ensures Delete(d, tx, info).dir.sockets.Keys == d.sockets.Keys
    ensures forall s :: s in d.sockets ==>
      Delete(d, tx, info).dir.sockets[s].localIdDict == d.sockets[s].localIdDict
      && Delete(d, tx, info).dir.sockets[s].context == d.sockets[s].context
    ensures Delete(d, tx, info).tx == tx.(wasDeleted := Delete(d, tx, info).tx.wasDeleted)
    ensures Delete(d, tx, info).info == info.(globalId := None, globalTarget := None)
  {
  }

  lemma ReplaceSocketPreservesValid(d: Dir, s: SocketId, cd: SocketData)
    requires Valid(d) && WellFormedSocket(cd)
    ensures Valid(d.(sockets := d.sockets[s := cd]))
  {
  }

  /** A record found under its key in a valid directory is stored and well
      formed. */
  lemma StoredOfValid(d: Dir, s: SocketId, k: Key)
    requires Valid(d) && s in d.sockets && k in d.sockets[s].localIdDict
    ensures Stored(d, s, d.sockets[s].localIdDict[k]) && WellFormedInfo(d.sockets[s].localIdDict[k])
  {
    assert WellFormedSocket(d.sockets[s]);
  }

  lemma WriteBackPreservesValid(d: Dir, s: SocketId, info: SubInfo)
    requires Valid(d) && s in d.sockets && WellFormedInfo(info)
    ensures Valid(WriteBack(d, s, info))
    ensures WriteBack(d, s, info).sockets.Keys == d.sockets.Keys
    ensures WriteBack(d, s, info).sockets[s].localIdDict.Keys == d.sockets[s].localIdDict.Keys + {info.localId}
    ensures WriteBack(d, s, info).sockets[s].context == d.sockets[s].context
  {
  }

  /** The directory facts that a re-resolution of socket `s` keeps. */
  predicate Keeps(d: Dir, d': Dir, s: SocketId)
    requires s in d.sockets
  {
    && Valid(d') && d'.sockets.Keys == d.sockets.Keys
    && d'.sockets[s].localIdDict.Keys == d.sockets[s].localIdDict.Keys
    && d'.sockets[s].context == d.sockets[s].context
  }

  lemma MovePreservesValid(d: Dir, s: SocketId, info: SubInfo, ng: Target)
    requires Valid(d) && Stored(d, s, info)
    ensures var tx := NewTransaction(s, info.meta);
      var del := if info.globalId.Some? then Delete(d, tx, info) else Deleted(d, tx, info);
      var info' := del.info.(globalId := Some(MakeKey(ng)), globalTarget := Some(ng));
      var c := Create(del.dir, del.tx, info');
      Keeps(d, WriteBack(c.dir, s, info'), s) && c.tx.socket == s && c.tx.deletedGlobalTarget.None?
  {
    var tx := NewTransaction(s, info.meta);
    var del := if info.globalId.Some? then Delete(d, tx, info) else Deleted(d, tx, info);
    if info.globalId.Some? { DeletePreservesValid(d, tx, info); DeleteFrame(d, tx, info); }
    assert Keeps(d, del.dir, s);
    assert del.dir.sockets[s].localIdDict == d.sockets[s].localIdDict;
    assert del.tx.socket == s && del.tx.deletedGlobalTarget.None?;
    var info' := del.info.(globalId := Some(MakeKey(ng)), globalTarget := Some(ng));
    CreatePreservesValid(del.dir, del.tx, info');
    var c := Create(del.dir, del.tx, info');
    WriteBackPreservesValid(c.dir, s, info');
  }

  lemma ResolvePreservesValid(d: Dir, s: SocketId, info: SubInfo)
    requires Valid(d) && Stored(d, s, info)
    ensures Keeps(d, Resolve(d, s, info).dir, s)
    ensures Resolve(d, s, info).tx.Some? ==>
      Resolve(d, s, info).tx.value.socket == s && Resolve(d, s, info).tx.value.deletedGlobalTarget.None?
  {
    var tx := NewTransaction(s, info.meta);
    var ng := MakeGlobalTarget(info, d.sockets[s].context);
    if ng.None? {
      if info.globalTarget.Some? {
        var del := Delete(d, tx, info);
        DeletePreservesValid(d, tx, info);
        DeleteFrame(d, tx, info);
        WriteBackPreservesValid(del.dir, s, del.info);
      }
    } else if !(info.globalId.Some? && MakeKey(ng.value) == info.globalId.value) {
      MovePreservesValid(d, s, info, ng.value);
    }
  }
}
