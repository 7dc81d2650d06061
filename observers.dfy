/** Observer firing of src/base-server.ts: `_trigger` and the three phases
    of `_completeTransaction`.  Observers are foreign callbacks and appear
    here as ids in registration order; a call either succeeds or fails (it
    throws, or its promise rejects), as the `fails` parameter says. */
module Observers {
  import opened Targets
  import opened Directory

  type HandlerId = nat

  /** The arguments one phase passes to every handler of its list. */
  datatype Args =
    | SubscriptionArgs(present: bool, target: Option<Target>, meta: Meta)
    | SocketArgs(globalTarget: Option<Target>, socket: SocketId, globalId: Key, localTarget: Option<Target>, meta: Meta)

  /** One observer invocation. */
  datatype Call = Call(handler: HandlerId, args: Args)

  /** `_trigger`: the handlers run one after another in registration order
      (`MyPromise.serial`), the first failing one ends the phase, and its
      error is swallowed.  The result is every call that was made. */
  function Fired(handlers: seq<HandlerId>, args: Args, fails: Call -> bool): (r: seq<Call>)
    ensures |r| <= |handlers|
    ensures forall i :: 0 <= i < |r| ==> r[i] == Call(handlers[i], args)
    ensures forall i :: 0 <= i < |r| - 1 ==> !fails(r[i])
    ensures |r| < |handlers| ==> r != [] && fails(r[|r| - 1])
    ensures handlers != [] ==> r != []
  {
    if handlers == [] then []
    else
      var c := Call(handlers[0], args);
      if fails(c) then [c] else [c] + Fired(handlers[1..], args, fails)
  }

  /** One step of `Fired` from position `i`. */
  lemma FiredStep(handlers: seq<HandlerId>, args: Args, fails: Call -> bool, i: nat)
    requires i < |handlers|
    ensures var c := Call(handlers[i], args);
      Fired(handlers[i..], args, fails) == if fails(c) then [c] else [c] + Fired(handlers[i + 1..], args, fails)
  {
    assert handlers[i..][1..] == handlers[i + 1..];
  }

  /** The delete phase: only when a group was deleted, with `present` false
      and the transaction's deleted target, which no operation ever sets. */
  function DeletePhase(tx: Tx, subscriptionHandlers: seq<HandlerId>, fails: Call -> bool): (r: seq<Call>)
    ensures r != [] <==> tx.wasDeleted && subscriptionHandlers != []
    ensures |r| <= |subscriptionHandlers|
    ensures forall i :: 0 <= i < |r| ==> r[i] == Call(subscriptionHandlers[i], SubscriptionArgs(false, tx.deletedGlobalTarget, tx.meta))
  {
    if tx.wasDeleted then Fired(subscriptionHandlers, SubscriptionArgs(false, tx.deletedGlobalTarget, tx.meta), fails) else []
  }

  /** The create phase: only when a group was created, with `present` true. */
  function CreatePhase(tx: Tx, subscriptionHandlers: seq<HandlerId>, fails: Call -> bool): (r: seq<Call>)
    ensures r != [] <==> tx.wasCreated && subscriptionHandlers != []
    ensures |r| <= |subscriptionHandlers|
    ensures forall i :: 0 <= i < |r| ==> r[i] == Call(subscriptionHandlers[i], SubscriptionArgs(true, tx.globalTarget, tx.meta))
  {
    if tx.wasCreated then Fired(subscriptionHandlers, SubscriptionArgs(true, tx.globalTarget, tx.meta), fails) else []
  }

  /** The socket phase: only when the transaction carries a global key. */
  function SocketPhase(tx: Tx, socketHandlers: seq<HandlerId>, fails: Call -> bool): (r: seq<Call>)
    ensures r != [] <==> tx.globalId.Some? && socketHandlers != []
    ensures |r| <= |socketHandlers|
    ensures tx.globalId.Some? ==> forall i :: 0 <= i < |r| ==>
      r[i] == Call(socketHandlers[i], SocketArgs(tx.globalTarget, tx.socket, tx.globalId.value, tx.localTarget, tx.meta))
  {
    if tx.globalId.Some? then
      Fired(socketHandlers, SocketArgs(tx.globalTarget, tx.socket, tx.globalId.value, tx.localTarget, tx.meta), fails)
    else []
  }

  /** Every call `_completeTransaction` makes, in the order it makes them. */
  function Completion(tx: Tx, subscriptionHandlers: seq<HandlerId>, socketHandlers: seq<HandlerId>, fails: Call -> bool): (r: seq<Call>)
    ensures r != [] <==>
      || ((tx.wasDeleted || tx.wasCreated) && subscriptionHandlers != [])
      || (tx.globalId.Some? && socketHandlers != [])
    ensures |r| <= 2 * |subscriptionHandlers| + |socketHandlers|
  {
    DeletePhase(tx, subscriptionHandlers, fails) + CreatePhase(tx, subscriptionHandlers, fails) + SocketPhase(tx, socketHandlers, fails)
  }

  /** The calls of completing the transactions one after another. */
  function CompletionAll(txs: seq<Tx>, subscriptionHandlers: seq<HandlerId>, socketHandlers: seq<HandlerId>, fails: Call -> bool): seq<Call>
    decreases |txs|
  {
    if txs == [] then []
    else CompletionAll(Init(txs), subscriptionHandlers, socketHandlers, fails)
         + Completion(Last(txs), subscriptionHandlers, socketHandlers, fails)
  }

  /** Completing a list of transactions is completing its two halves one
      after the other: each transaction's calls form one contiguous run. */
  lemma {:induction false} CompletionAllAppend(a: seq<Tx>, b: seq<Tx>, subHs: seq<HandlerId>, sockHs: seq<HandlerId>, fails: Call -> bool)
    ensures CompletionAll(a + b, subHs, sockHs, fails) == CompletionAll(a, subHs, sockHs, fails) + CompletionAll(b, subHs, sockHs, fails)
    decreases |b|
  {
    if b == [] {
      assert a + b == a;
    } else {
      assert Init(a + b) == a + Init(b) && Last(a + b) == Last(b);
      CompletionAllAppend(a, Init(b), subHs, sockHs, fails);
      var last := Completion(Last(b), subHs, sockHs, fails);
      AppendAssoc(CompletionAll(a, subHs, sockHs, fails), CompletionAll(Init(b), subHs, sockHs, fails), last);
    }
  }

  /** The phase a call belongs to: delete, create, socket. */
  function Phase(c: Call): nat {
    match c.args
    case SubscriptionArgs(present, _, _) => if present then 1 else 0
    case SocketArgs(_, _, _, _, _) => 2
  }

  lemma PhasesOfParts(tx: Tx, subHs: seq<HandlerId>, sockHs: seq<HandlerId>, fails: Call -> bool)
    ensures forall c :: c in DeletePhase(tx, subHs, fails) ==> Phase(c) == 0
    ensures forall c :: c in CreatePhase(tx, subHs, fails) ==> Phase(c) == 1
    ensures forall c :: c in SocketPhase(tx, sockHs, fails) ==> Phase(c) == 2
  {
  }

  /** Three runs of calls, each within one phase and in increasing phase,
      concatenate to a sequence ordered by phase. */
  lemma ConcatOrdered(a: seq<Call>, b: seq<Call>, c: seq<Call>)
    requires forall x :: x in a ==> Phase(x) == 0
    requires forall x :: x in b ==> Phase(x) == 1
    requires forall x :: x in c ==> Phase(x) == 2
    ensures var r := a + b + c; forall i, j :: 0 <= i < j < |r| ==> Phase(r[i]) <= Phase(r[j])
  {
    var r := a + b + c;
    forall i, j | 0 <= i < j < |r| ensures Phase(r[i]) <= Phase(r[j]) {
      if i < |a| { assert r[i] == a[i]; }
      else if i < |a| + |b| { assert r[i] == b[i - |a|]; } else { assert r[i] == c[i - |a| - |b|]; }
      if j < |a| { assert r[j] == a[j]; }
      else if j < |a| + |b| { assert r[j] == b[j - |a|]; } else { assert r[j] == c[j - |a| - |b|]; }
    }
  }

  /** The three phases run in a fixed order: every delete-phase call comes
      before every create-phase call, which comes before every socket call. */
  lemma CompletionOrdered(tx: Tx, subHs: seq<HandlerId>, sockHs: seq<HandlerId>, fails: Call -> bool)
    ensures var r := Completion(tx, subHs, sockHs, fails);
      forall i, j :: 0 <= i < j < |r| ==> Phase(r[i]) <= Phase(r[j])
  {
    PhasesOfParts(tx, subHs, sockHs, fails);
    ConcatOrdered(DeletePhase(tx, subHs, fails), CreatePhase(tx, subHs, fails), SocketPhase(tx, sockHs, fails));
  }

  /** A phase makes calls iff its flag is set and a handler is registered
      for it: deleted, then created, then a global key present. */
  lemma CompletionPhasesRun(tx: Tx, subHs: seq<HandlerId>, sockHs: seq<HandlerId>, fails: Call -> bool)
    ensures (exists c :: c in Completion(tx, subHs, sockHs, fails) && Phase(c) == 0) <==> tx.wasDeleted && subHs != []
    ensures (exists c :: c in Completion(tx, subHs, sockHs, fails) && Phase(c) == 1) <==> tx.wasCreated && subHs != []
    ensures (exists c :: c in Completion(tx, subHs, sockHs, fails) && Phase(c) == 2) <==> tx.globalId.Some? && sockHs != []
  {
    PhasesOfParts(tx, subHs, sockHs, fails);
    var del := DeletePhase(tx, subHs, fails);
    var cre := CreatePhase(tx, subHs, fails);
    var sck := SocketPhase(tx, sockHs, fails);
    var r := del + cre + sck;
    assert forall c :: c in r <==> c in del || c in cre || c in sck;
    if tx.wasDeleted && subHs != [] { assert del[0] in r; }
    if tx.wasCreated && subHs != [] { assert cre[0] in r; }
    if tx.globalId.Some? && sockHs != [] { assert sck[0] in r; }
  }

  /** Delete-phase handlers receive no target: the transactions the
      directory builds never record the deleted target. */
  lemma DeletePhaseHasNoTarget(tx: Tx, subHs: seq<HandlerId>, sockHs: seq<HandlerId>, fails: Call -> bool)
    requires tx.deletedGlobalTarget.None?
    ensures forall c :: c in Completion(tx, subHs, sockHs, fails) && Phase(c) == 0 ==>
      c.args == SubscriptionArgs(false, None, tx.meta)
  {
    var del := DeletePhase(tx, subHs, fails);
    var cre := CreatePhase(tx, subHs, fails);
    var sck := SocketPhase(tx, sockHs, fails);
    assert forall c :: c in cre ==> Phase(c) == 1;
    assert forall c :: c in sck ==> Phase(c) == 2;
    assert forall c :: c in del ==> c.args == SubscriptionArgs(false, None, tx.meta);
  }
}
