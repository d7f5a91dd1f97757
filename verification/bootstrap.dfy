/**
 The start-up wiring: a fresh container, one binding of "DB" to the closure
 that connects with the loaded configuration, and publication through the
 static holder. The closure is known only by its id; what a call of it produces
 (a connection, a thrown error, or some other value) is the oracle's business.
 */
module Bootstrap {
  import opened Php
  import opened ServiceContainer
  import opened AppHolder
  import opened Sessions

  /** The container built at start-up, with `connect` the id of the "DB"
      closure. */
  function Wired(connect: nat): Container
  {
    Bind(New(), "DB", Closure(connect))
  }

  /** The holder after start-up. */
  function Boot(a: App, connect: nat): App
  {
    SetContainer(a, Wired(connect))
  }

  /** After start-up exactly one key is bound, "DB", to the connecting
      closure, and wiring it as a run of calls invokes nothing. */
  lemma BootstrapWiring(connect: nat, oracle: Oracle, log: Log)
    ensures Wired(connect).binding.Keys == {"DB"}
    ensures Lookup(Wired(connect), "DB") == Some(Closure(connect))
    ensures ContainerOf(Boot(Uninitialised, connect)) == Returned(Wired(connect))
    ensures Run(Session(New(), log, []), [BindOp("DB", Closure(connect))], oracle) ==
            Session(Wired(connect), log, [])
  {
    assert [BindOp("DB", Closure(connect))][1..] == [];
  }

  /** `DB()` after start-up invokes the connecting closure once: a connection
      comes back as is, a throwable propagates unchanged, and any other value
      the closure returns is rejected by the `mysqli` return type. */
  lemma DBAfterBoot(a: App, connect: nat, oracle: Oracle, log: Log)
    ensures DB(Boot(a, connect), oracle, log).log == log + [connect]
    ensures oracle(connect, log).Returned? && oracle(connect, log).value.Mysqli? ==>
              DB(Boot(a, connect), oracle, log).outcome == oracle(connect, log)
    ensures oracle(connect, log).Threw? ==>
              DB(Boot(a, connect), oracle, log).outcome == oracle(connect, log)
    ensures oracle(connect, log).Returned? && !oracle(connect, log).value.Mysqli? ==>
              DB(Boot(a, connect), oracle, log).outcome == Threw(ReturnTypeError("DB", "mysqli"))
  {
    ResolveBoundClosure(Wired(connect), "DB", connect, oracle, log);
    DBIsResolveDB(Boot(a, connect), Wired(connect), oracle, log);
  }

  /** `DB()` before start-up is a method call on `null`. */
  lemma DBBeforeBoot(oracle: Oracle, log: Log)
    ensures DB(Uninitialised, oracle, log) == Call(Threw(NullMethodError("resolve")), log)
  {
  }

  /** Only "DB" is bound, so resolving "CACHE" throws the exception
      "Service CACHE is not bound in the container.", which names "CACHE". */
  lemma ResolveCacheAfterBoot(connect: nat, oracle: Oracle, log: Log)
    ensures Resolve(Wired(connect), "CACHE", oracle, log).log == log
    ensures Resolve(Wired(connect), "CACHE", oracle, log).outcome ==
            Threw(Exception(NotBoundMessage("CACHE")))
    ensures KeyNamedBy(Resolve(Wired(connect), "CACHE", oracle, log).outcome.error.message) == Some("CACHE")
  {
    assert |"CACHE"| != |"DB"|;
    assert Lookup(Wired(connect), "CACHE") == None;
    ResolveUnboundNamesKey(Wired(connect), "CACHE", oracle, log);
  }
}
