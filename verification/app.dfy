/**
 The static holder in front of the container: its one static field is either
 still `null` or holds the container last published with `setContainer`.
 `DB()` resolves the "DB" key on that container and lets the declared `mysqli`
 return type reject anything that is not a connection.
 */
module AppHolder {
  import opened Php
  import opened ServiceContainer

  /** The static `$container` field; `None` is its initial `null`. */
  datatype App = App(held: Option<Container>)

  const Uninitialised := App(None)

  /** `setContainer($container)`: overwrite the field; last write wins. */
  function SetContainer(a: App, c: Container): (a': App)
    ensures ContainerOf(a') == Returned(c)
  {
    App(Some(c))
  }

  /** `container()`: the held container, or the `TypeError` the declared
      `Container` return type raises for `null`. */
  function ContainerOf(a: App): (r: Outcome<Container>)
    ensures r.Returned? <==> a.held.Some?
    ensures r.Threw? ==> r.error == ReturnTypeError("container", "Container")
  {
    match a.held
    case Some(c) => Returned(c)
    case None => Threw(ReturnTypeError("container", "Container"))
  }

  /** The `mysqli` return-type check of `DB()`: a connection or a throwable
      passes through, any other value becomes a `TypeError`. */
  function AsMysqli(o: Outcome<Value>): (r: Outcome<Value>)
    ensures r.Returned? ==> r.value.Mysqli? && r == o
    ensures o.Threw? ==> r == o
    ensures o.Returned? && o.value.Mysqli? ==> r == o
    ensures o.Returned? && !o.value.Mysqli? ==> r == Threw(ReturnTypeError("DB", "mysqli"))
  {
    match o
    case Returned(v) =>
      if v.Mysqli? then o else Threw(ReturnTypeError("DB", "mysqli"))
    case Threw(e) => o
  }

  /** `DB()`: `self::$container->resolve('DB')`, which is a method call on
      `null` before any container has been set. */
  function DB(a: App, oracle: Oracle, log: Log): (r: Call<Value>)
    ensures r.outcome.Returned? ==> r.outcome.value.Mysqli?
    ensures a.held.None? ==> r == Call(Threw(NullMethodError("resolve")), log)
    ensures log <= r.log
  {
    match a.held
    case None => Call(Threw(NullMethodError("resolve")), log)
    case Some(c) =>
      var rc := Resolve(c, "DB", oracle, log);
      Call(AsMysqli(rc.outcome), rc.log)
  }

  /** `App::container()->bind($k, $f)`. A PHP container is an object shared
      by reference, so a bind on the container `container()` hands out is
      seen by every later `DB()`; with containers as values, that is
      publishing the updated container again. Before any `setContainer`,
      `container()` throws and nothing is bound. */
  function BindOnHeld(a: App, k: Key, f: Callback): (r: Outcome<App>)
    ensures r.Returned? <==> a.held.Some?
    ensures r.Threw? ==> r.error == ContainerOf(a).error
    ensures r.Returned? ==> ContainerOf(r.value) == Returned(Bind(a.held.value, k, f))
  {
    match ContainerOf(a)
    case Returned(c) => Returned(SetContainer(a, Bind(c, k, f)))
    case Threw(e) => Threw(e)
  }

  /** Publishes each container of `cs` in turn. */
  function SetEach(a: App, cs: seq<Container>): App
    decreases |cs|
  {
    if |cs| == 0 then a else SetEach(SetContainer(a, cs[0]), cs[1..])
  }

  /** Before any `setContainer`, `container()` fails. */
  lemma ContainerBeforeSet()
    ensures ContainerOf(Uninitialised) == Threw(ReturnTypeError("container", "Container"))
  {
  }

  /** After a run of `setContainer` calls only the last container is held;
      an empty run leaves the holder as it was. */
  lemma {:induction false} LastSetWins(a: App, cs: seq<Container>)
    ensures |cs| == 0 ==> SetEach(a, cs) == a
    ensures |cs| > 0 ==> ContainerOf(SetEach(a, cs)) == Returned(cs[|cs| - 1])
    decreases |cs|
  {
    if |cs| > 1 {
      LastSetWins(SetContainer(a, cs[0]), cs[1..]);
      assert cs[1..][|cs[1..]| - 1] == cs[|cs| - 1];
    }
  }

  /** `DB()` is `resolve('DB')` on the held container, seen through the
      `mysqli` return type: the same invocations, the same throwable, the
      same connection, and a `TypeError` for any other value. */
  lemma DBIsResolveDB(a: App, c: Container, oracle: Oracle, log: Log)
    requires a.held == Some(c)
    ensures DB(a, oracle, log).log == Resolve(c, "DB", oracle, log).log
    ensures Resolve(c, "DB", oracle, log).outcome.Threw? ==>
              DB(a, oracle, log).outcome == Resolve(c, "DB", oracle, log).outcome
    ensures Resolve(c, "DB", oracle, log).outcome.Returned? ==>
              (DB(a, oracle, log).outcome.Returned? <==>
               Resolve(c, "DB", oracle, log).outcome.value.Mysqli?)
    ensures DB(a, oracle, log).outcome.Returned? ==>
              DB(a, oracle, log).outcome == Resolve(c, "DB", oracle, log).outcome
    ensures Resolve(c, "DB", oracle, log).outcome.Returned? &&
            !Resolve(c, "DB", oracle, log).outcome.value.Mysqli? ==>
              DB(a, oracle, log).outcome == Threw(ReturnTypeError("DB", "mysqli"))
  {
  }

  /** When the held container has no "DB" binding, `DB()` propagates the
      container's not-bound exception, which names "DB". */
  lemma DBUnbound(a: App, c: Container, oracle: Oracle, log: Log)
    requires a.held == Some(c) && Lookup(c, "DB") == None
    ensures DB(a, oracle, log).log == log
    ensures DB(a, oracle, log).outcome.Threw?
    ensures DB(a, oracle, log).outcome.error.Exception?
    ensures KeyNamedBy(DB(a, oracle, log).outcome.error.message) == Some("DB")
  {
    ResolveUnboundNamesKey(c, "DB", oracle, log);
  }

  /** A "DB" factory bound on the held container after publication is the
      one `DB()` invokes from then on. */
  lemma DBSeesBindOnHeld(a: App, id: nat, oracle: Oracle, log: Log)
    requires a.held.Some?
    ensures BindOnHeld(a, "DB", Closure(id)).Returned?
    ensures DB(BindOnHeld(a, "DB", Closure(id)).value, oracle, log).log == log + [id]
    ensures oracle(id, log).Threw? || oracle(id, log).value.Mysqli? ==>
              DB(BindOnHeld(a, "DB", Closure(id)).value, oracle, log).outcome == oracle(id, log)
  {
    var c' := Bind(a.held.value, "DB", Closure(id));
    ResolveBoundClosure(c', "DB", id, oracle, log);
    DBIsResolveDB(BindOnHeld(a, "DB", Closure(id)).value, c', oracle, log);
  }
}
