/**
 Sequences of `bind` and `resolve` calls on one container, run in order. This is
 where the container's promises over several calls are stated: the last bind of
 a key decides what it resolves to, resolves never change the bindings, and each
 resolve invokes its factory again, because nothing is cached.
 */
module Sessions {
  import opened Php
  import opened ServiceContainer

  datatype Op = BindOp(key: Key, factory: Callback) | ResolveOp(key: Key)

  /** The container, the invocation log, and the outcome of every resolve so
      far, oldest first. */
  datatype Session = Session(container: Container, log: Log, results: seq<Outcome<Value>>)

  /** One call on the container. */
  function Step(s: Session, op: Op, oracle: Oracle): (s': Session)
    ensures op.BindOp? ==> s'.log == s.log && s'.results == s.results
    ensures op.ResolveOp? ==> s'.container == s.container
    ensures op.ResolveOp? ==> |s'.results| == |s.results| + 1 && s.results <= s'.results
    ensures s.log <= s'.log
  {
    match op
    case BindOp(k, f) => s.(container := Bind(s.container, k, f))
    case ResolveOp(k) =>
      var r := Resolve(s.container, k, oracle, s.log);
      s.(log := r.log, results := s.results + [r.outcome])
  }

  /** Runs the calls of `ops` in order. */
  function Run(s: Session, ops: seq<Op>, oracle: Oracle): Session
    decreases |ops|
  {
    if |ops| == 0 then s else Run(Step(s, ops[0], oracle), ops[1..], oracle)
  }

  /** The factory of the last bind of `k` in `ops`, scanning from the end: a
      reference definition of "last write wins" independent of `Run`. */
  function LastBind(ops: seq<Op>, k: Key): Option<Callback>
    decreases |ops|
  {
    if |ops| == 0 then None
    else match ops[|ops| - 1]
      case BindOp(k', f) => if k' == k then Some(f) else LastBind(ops[..|ops| - 1], k)
      case ResolveOp(_) => LastBind(ops[..|ops| - 1], k)
  }

  /** How many calls of `ops` are resolves. */
  function Resolves(ops: seq<Op>): nat
    decreases |ops|
  {
    if |ops| == 0 then 0 else (if ops[0].ResolveOp? then 1 else 0) + Resolves(ops[1..])
  }

  /** `n` copies of `x`. */
  function Copies<T>(x: T, n: nat): (r: seq<T>)
    ensures |r| == n
    ensures forall i :: 0 <= i < n ==> r[i] == x
  {
    if n == 0 then [] else [x] + Copies(x, n - 1)
  }

  /** The last bind of `k` in `[op] + rest` is the last one in `rest`, or
      else `op` itself. */
  lemma {:induction false} LastBindCons(op: Op, rest: seq<Op>, k: Key)
    ensures LastBind([op] + rest, k) ==
            if LastBind(rest, k).Some? then LastBind(rest, k) else LastBind([op], k)
    decreases |rest|
  {
    if |rest| > 0 {
      var init := rest[..|rest| - 1];
      assert ([op] + rest)[..|[op] + rest| - 1] == [op] + init;
      assert ([op] + rest)[|[op] + rest| - 1] == rest[|rest| - 1];
      LastBindCons(op, init, k);
    } else {
      assert [op] + rest == [op];
    }
  }

  /** After any run, a key resolves to the factory of its last bind in the
      run; a key the run never binds keeps the binding it had. Resolves in
      between make no difference. */
  lemma {:induction false} RunBindings(s: Session, ops: seq<Op>, oracle: Oracle, k: Key)
    ensures Lookup(Run(s, ops, oracle).container, k) ==
            if LastBind(ops, k).Some? then LastBind(ops, k) else Lookup(s.container, k)
    decreases |ops|
  {
    if |ops| > 0 {
      RunBindings(Step(s, ops[0], oracle), ops[1..], oracle, k);
      assert ops == [ops[0]] + ops[1..];
      LastBindCons(ops[0], ops[1..], k);
      assert [ops[0]][..0] == [];
    }
  }

  /** Each resolve of a run adds exactly one outcome and invokes at most one
      factory; binds invoke nothing. Earlier outcomes and invocations are
      kept. */
  lemma {:induction false} RunResults(s: Session, ops: seq<Op>, oracle: Oracle)
    ensures |Run(s, ops, oracle).results| == |s.results| + Resolves(ops)
    ensures s.results <= Run(s, ops, oracle).results
    ensures s.log <= Run(s, ops, oracle).log
    ensures |Run(s, ops, oracle).log| <= |s.log| + Resolves(ops)
    decreases |ops|
  {
    if |ops| > 0 {
      RunResults(Step(s, ops[0], oracle), ops[1..], oracle);
    }
  }

  /** No memoisation: resolving a key bound to a closure `n` times invokes the
      closure `n` times, and the i-th outcome is whatever its i-th invocation
      produced. The bindings are untouched. */
  lemma {:induction false} RepeatedResolveInvokesEveryTime(s: Session, k: Key, id: nat, n: nat, oracle: Oracle)
    requires Lookup(s.container, k) == Some(Closure(id))
    ensures Run(s, Copies(ResolveOp(k), n), oracle).container == s.container
    ensures Run(s, Copies(ResolveOp(k), n), oracle).log == s.log + Copies(id, n)
    ensures |Run(s, Copies(ResolveOp(k), n), oracle).results| == |s.results| + n
    ensures forall i :: 0 <= i < n ==>
              Run(s, Copies(ResolveOp(k), n), oracle).results[|s.results| + i] ==
              oracle(id, s.log + Copies(id, i))
    decreases n
  {
    if n > 0 {
      var ops := Copies(ResolveOp(k), n);
      var s1 := Step(s, ResolveOp(k), oracle);
      ResolveBoundClosure(s.container, k, id, oracle, s.log);
      assert s1.log == s.log + [id];
      assert s1.results == s.results + [oracle(id, s.log)];
      assert ops[1..] == Copies(ResolveOp(k), n - 1);
      RepeatedResolveInvokesEveryTime(s1, k, id, n - 1, oracle);
      RunResults(s1, ops[1..], oracle);
      var fin := Run(s, ops, oracle);
      assert fin == Run(s1, ops[1..], oracle);
      assert s.log + Copies(id, n) == s1.log + Copies(id, n - 1);
      forall i | 0 <= i < n
        ensures fin.results[|s.results| + i] == oracle(id, s.log + Copies(id, i))
      {
        if i == 0 {
          assert fin.results[|s.results|] == s1.results[|s.results|];
          assert s.log + Copies(id, 0) == s.log;
        } else {
          assert s.log + Copies(id, i) == s1.log + Copies(id, i - 1);
          assert fin.results[|s.results| + i] == fin.results[|s1.results| + (i - 1)];
        }
      }
    }
  }

  /** Two resolves of one key invoke its factory twice. */
  lemma ResolveTwiceInvokesTwice(s: Session, k: Key, id: nat, oracle: Oracle)
    requires Lookup(s.container, k) == Some(Closure(id))
    ensures Run(s, [ResolveOp(k), ResolveOp(k)], oracle).log == s.log + [id, id]
  {
    assert [ResolveOp(k), ResolveOp(k)] == Copies(ResolveOp(k), 2);
    RepeatedResolveInvokesEveryTime(s, k, id, 2, oracle);
    assert Copies(id, 2) == [id, id];
  }

  /** A factory that opens a new connection on each call hands two resolves
      two different connections: the container does not cache. */
  lemma FreshConnectionEachResolve(id: nat)
    ensures var oracle: Oracle := (i: nat, log: Log) => Returned(Mysqli(|log|));
            var s := Session(Bind(New(), "DB", Closure(id)), [], []);
            var fin := Run(s, [ResolveOp("DB"), ResolveOp("DB")], oracle);
            fin.results == [Returned(Mysqli(0)), Returned(Mysqli(1))]
  {
    var oracle: Oracle := (i: nat, log: Log) => Returned(Mysqli(|log|));
    var s := Session(Bind(New(), "DB", Closure(id)), [], []);
    var s1 := Step(s, ResolveOp("DB"), oracle);
    assert s1.log == [id];
    assert [ResolveOp("DB"), ResolveOp("DB")][1..] == [ResolveOp("DB")];
  }
}
