/** Targets, values and target keys, shared by the subscription directory
    and the value cache.

    A target is a flat record of field names to scalar values.  A field that
    is absent from the map plays the part of JavaScript's `undefined`.  The
    key of a target (src/utils.ts:4-7) is a stable, order-independent
    serialisation; on canonical maps that is the identity, so the key of a
    target is the target itself and keys are injective by construction. */
module Targets {

  /** Scalar values carried by targets, contexts and cached items. */
  datatype Value = Null | Bool(b: bool) | Num(n: int) | Str(s: string)

  type Target = map<string, Value>

  /** A canonical target key. */
  type Key = Target

  type SocketId = string

  datatype Option<+T> = None | Some(value: T) {
    function GetOr(default: T): T {
      match this
      case Some(v) => v
      case None => default
    }
  }

  /** `makeKey`: equal targets get equal keys, distinct targets distinct keys. */
  function MakeKey(t: Target): Key {
    t
  }

  /** Distinct targets get distinct keys. */
  lemma MakeKeyInjective(a: Target, b: Target)
    ensures MakeKey(a) == MakeKey(b) <==> a == b
  {
  }

  /** `_.isNullOrUndefined(m[f])`: the field is absent or holds null. */
  predicate Missing(m: Target, f: string) {
    f !in m || m[f] == Null
  }

  /** `_.defaults(t, extras)`: every field of `extras` that `t` lacks is
      added, fields already in `t` keep their value. */
  function Defaults(t: Target, extras: Target): (r: Target)
    ensures r.Keys == t.Keys + extras.Keys
    ensures forall k :: k in t ==> r[k] == t[k]
    ensures forall k :: k in extras && k !in t ==> r[k] == extras[k]
  {
    extras + t
  }

  /** The elements of `s` are pairwise distinct. */
  predicate NoDuplicates<T(==)>(s: seq<T>) {
    forall i, j :: 0 <= i < j < |s| ==> s[i] != s[j]
  }

  /** `s` lists every element of `xs` exactly once. */
  predicate Enumerates<T(==)>(s: seq<T>, xs: set<T>) {
    NoDuplicates(s) && (forall x :: x in s ==> x in xs) && (forall x :: x in xs ==> x in s)
  }

  function Last<T>(s: seq<T>): T requires s != [] { s[|s| - 1] }

  function Init<T>(s: seq<T>): seq<T> requires s != [] { s[..|s| - 1] }

  lemma InitLast<T>(s: seq<T>)
    requires s != []
    ensures s == Init(s) + [Last(s)]
  {
  }

  lemma AppendAssoc<T>(a: seq<T>, b: seq<T>, c: seq<T>)
    ensures a + b + c == a + (b + c)
  {
  }
}
