/**
 The service container: a finite map from string keys to factories. `Bind`
 stores a factory (overwriting any earlier one for the same key) and `Resolve`
 looks a key up and invokes what it finds, every time, without caching.
 */
module ServiceContainer {
  import opened Php

  type Key = string

  datatype Container = Container(binding: map<Key, Callback>)

  /** The factory stored under `k`, if any. */
  function Lookup(c: Container, k: Key): Option<Callback>
  {
    if k in c.binding then Some(c.binding[k]) else None
  }

  /** `new Container()`: the binding array starts out empty. */
  function New(): (c: Container)
    ensures forall k :: Lookup(c, k) == None
  {
    Container(map[])
  }

  /** `bind($key, $fun)`: stores the factory without invoking or checking it. */
  function Bind(c: Container, k: Key, f: Callback): (c': Container)
    ensures Lookup(c', k) == Some(f)
    ensures forall k' :: k' != k ==> Lookup(c', k') == Lookup(c, k')
    ensures c'.binding.Keys == c.binding.Keys + {k}
  {
    Container(c.binding[k := f])
  }

  const NotBoundPrefix := "Service "
  const NotBoundSuffix := " is not bound in the container."

  /** The message of the exception `resolve` throws for an unbound key. */
  function NotBoundMessage(k: Key): (m: string)
    ensures |m| == |NotBoundPrefix| + |k| + |NotBoundSuffix|
    ensures m[..|NotBoundPrefix|] == NotBoundPrefix
    ensures m[|NotBoundPrefix|..|NotBoundPrefix| + |k|] == k
    ensures m[|NotBoundPrefix| + |k|..] == NotBoundSuffix
  {
    NotBoundPrefix + k + NotBoundSuffix
  }

  /** Reads back the key a not-bound message names; `None` for any other
      message. */
  function KeyNamedBy(m: string): (r: Option<Key>)
    ensures r.Some? ==> |r.value| + |NotBoundPrefix| + |NotBoundSuffix| == |m|
  {
    var p := |NotBoundPrefix|;
    var q := |m| - |NotBoundSuffix|;
    if p <= q && m[..p] == NotBoundPrefix && m[q..] == NotBoundSuffix
    then Some(m[p..q])
    else None
  }

  /** `resolve($key)`: invoke the factory bound to `k`, or throw an
      `Exception` naming `k` when there is none. The container itself is
      only read. */
  function Resolve(c: Container, k: Key, oracle: Oracle, log: Log): (r: Call<Value>)
    ensures log <= r.log && |r.log| <= |log| + 1
    ensures |r.log| == |log| + 1 <==> Lookup(c, k).Some? && Lookup(c, k).value.Closure?
    ensures Lookup(c, k) == None ==> r == Call(Threw(Exception(NotBoundMessage(k))), log)
  {
    if k in c.binding then Invoke(c.binding[k], oracle, log)
    else Call(Threw(Exception(NotBoundMessage(k))), log)
  }

  /** The message built for a key gives that key back. */
  lemma KeyNamedByMessage(k: Key)
    ensures KeyNamedBy(NotBoundMessage(k)) == Some(k)
  {
    var m := NotBoundMessage(k);
    var p := |NotBoundPrefix|;
    var q := |m| - |NotBoundSuffix|;
    assert m[..p] == NotBoundPrefix;
    assert m[q..] == NotBoundSuffix;
    assert m[p..q] == k;
  }

  /** Any message that names a key is exactly that key's not-bound message. */
  lemma MessageOfNamedKey(m: string, k: Key)
    requires KeyNamedBy(m) == Some(k)
    ensures NotBoundMessage(k) == m
  {
    var p := |NotBoundPrefix|;
    var q := |m| - |NotBoundSuffix|;
    assert m == m[..p] + m[p..q] + m[q..];
  }

  /** Different keys give different messages, so the message identifies the
      missing key. */
  lemma NotBoundMessageInjective(k1: Key, k2: Key)
    ensures NotBoundMessage(k1) == NotBoundMessage(k2) <==> k1 == k2
  {
    if NotBoundMessage(k1) == NotBoundMessage(k2) {
      KeyNamedByMessage(k1);
      KeyNamedByMessage(k2);
    }
  }

  /** Resolving an unbound key throws an `Exception` whose message names the
      key, and invokes nothing. */
  lemma ResolveUnboundNamesKey(c: Container, k: Key, oracle: Oracle, log: Log)
    requires Lookup(c, k) == None
    ensures Resolve(c, k, oracle, log).log == log
    ensures Resolve(c, k, oracle, log).outcome.Threw?
    ensures Resolve(c, k, oracle, log).outcome.error.Exception?
    ensures KeyNamedBy(Resolve(c, k, oracle, log).outcome.error.message) == Some(k)
  {
    KeyNamedByMessage(k);
  }

  /** Resolving a key bound to a closure invokes it exactly once and returns
      its outcome unchanged, whether a value or a throwable. */
  lemma ResolveBoundClosure(c: Container, k: Key, id: nat, oracle: Oracle, log: Log)
    requires Lookup(c, k) == Some(Closure(id))
    ensures Resolve(c, k, oracle, log).outcome == oracle(id, log)
    ensures Resolve(c, k, oracle, log).log == log + [id]
  {
  }

  /** A bound value that is not callable makes `call_user_func` throw a
      `TypeError`; nothing is invoked. */
  lemma ResolveBoundNonCallable(c: Container, k: Key, oracle: Oracle, log: Log)
    requires Lookup(c, k) == Some(NonCallable)
    ensures Resolve(c, k, oracle, log) == Call(Threw(CallbackTypeError), log)
  {
  }

  /** After `bind(k, f)`, resolving `k` is invoking `f`, whatever was bound
      before. */
  lemma ResolveAfterBind(c: Container, k: Key, f: Callback, oracle: Oracle, log: Log)
    ensures Resolve(Bind(c, k, f), k, oracle, log) == Invoke(f, oracle, log)
  {
  }

  /** `bind(k, f)` does not change how any other key resolves. */
  lemma ResolveOtherAfterBind(c: Container, k: Key, f: Callback, k': Key, oracle: Oracle, log: Log)
    requires k' != k
    ensures Resolve(Bind(c, k, f), k', oracle, log) == Resolve(c, k', oracle, log)
  {
    assert Lookup(Bind(c, k, f), k') == Lookup(c, k');
  }

  /** A second bind of the same key replaces the first: last write wins. */
  lemma RebindReplaces(c: Container, k: Key, f1: Callback, f2: Callback)
    ensures Bind(Bind(c, k, f1), k, f2) == Bind(c, k, f2)
  {
  }

  /** Binds of distinct keys do not interfere, so their order is irrelevant. */
  lemma BindsOfDistinctKeysCommute(c: Container, k1: Key, f1: Callback, k2: Key, f2: Callback)
    requires k1 != k2
    ensures Bind(Bind(c, k1, f1), k2, f2) == Bind(Bind(c, k2, f2), k1, f1)
  {
  }

  /** In a new container every key is unbound. */
  lemma ResolveOnNew(k: Key, oracle: Oracle, log: Log)
    ensures Resolve(New(), k, oracle, log) == Call(Threw(Exception(NotBoundMessage(k))), log)
  {
  }
}
