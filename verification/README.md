# Service container and static application holder

A Dafny model of a minimal PHP dependency-injection container. The model has two parts.

- `Core\Container` is a registry of named factories. `bind($key, $fun)` stores a factory under a string key and overwrites any earlier one. `resolve($key)` calls the stored factory on every request and caches nothing. For a key with no binding it throws an `Exception` that names the key.
- `Core\App` is the static holder in front of it. It keeps one container in a static field. `container()` hands that container out. `DB()` is shorthand for resolving `'DB'`.

The model is functional.

- A `Container` wraps a `map<string, Callback>`.
- `Bind` and `SetContainer` return new state.
- `Resolve` and `DB` return the outcome of the call together with an invocation log.

A factory is known only by an id. What it produces belongs to the world outside the container: opening a database connection, or failing to. That behaviour is an `Oracle` parameter. Given a closure id and the log of every earlier invocation, it returns a PHP `Outcome`: a returned value or a thrown throwable. The log records every factory call. This makes "binding invokes nothing" and "every resolve invokes again" provable statements.

Modules:

- `Php` (`php.dfy`): PHP values, throwables, outcomes, stored callbacks, and the `call_user_func` step.
- `ServiceContainer` (`container.dfy`): `core/Container.php`.
- `AppHolder` (`app.dfy`): `core/App.php`.
- `Sessions` (`sessions.dfy`): runs of `bind`/`resolve` calls on one container. It holds the multi-call properties: last write wins, and no memoisation.
- `Bootstrap` (`bootstrap.php` wiring, `bootstrap.dfy`): the three wiring steps, replayed as example lemmas.

Points where the model follows the code closely:

- Neither `container()` nor `DB()` has an uninitialised check of its own.
  - `container()` fails because its declared `Container` return type rejects `null`. This is a `TypeError`, modelled as `ReturnTypeError("container", "Container")`.
  - `DB()` fails because it calls `resolve` on `null`. This is an `Error`, modelled as `NullMethodError("resolve")`.
- There is no dedicated not-bound exception class. `resolve` throws a plain `Exception`. The only thing that identifies the key is its message, `Service {key} is not bound in the container.` The model proves that the key can be read back from that message (`KeyNamedBy`).
- `bind` does not check that what it stores is callable. A non-callable value fails only at `resolve`, when `call_user_func` raises a `TypeError` (`NonCallable`, `CallbackTypeError`).
- A factory's result passes through `DB()`'s `mysqli` return type. Any non-connection value a factory returns becomes a `TypeError` (`ReturnTypeError("DB", "mysqli")`). It never counts as a success.
- Containers are values in the model, while PHP containers are objects shared by reference. A bind on the container that `container()` hands out is therefore modelled as publishing the updated container again (`BindOnHeld`).

## Model

| member | source | states |
|---|---|---|
| ServiceContainer.New | core/Container.php:9 | a new container has no binding for any key |
| ServiceContainer.Bind | core/Container.php:11-14 | after `bind(k, f)` the entry for `k` is exactly `f`; every other key keeps its entry; the key set grows by `k` only |
| ServiceContainer.Resolve | core/Container.php:19-26 | resolve invokes at most one factory and only appends to the invocation log; it invokes one exactly when `k` is bound to a callable; an unbound key throws an `Exception` with the not-bound message and invokes nothing |
| Php.Invoke | core/Container.php:22 | `call_user_func` invokes a callable exactly once and logs it, keeping earlier invocations; a non-callable value throws without invoking anything (its outcome is fixed by `ResolveBoundClosure` and `ResolveBoundNonCallable`) |
| ServiceContainer.NotBoundMessage | core/Container.php:25 | the message is the fixed prefix, then the key itself, then the fixed suffix; `KeyNamedByMessage` reads the key back |
| ServiceContainer.KeyNamedBy | core/Container.php:25 | a message that names a key has exactly the prefix, key and suffix lengths |
| ServiceContainer.KeyNamedByMessage | core/Container.php:25 | the not-bound message for `k` gives `k` back: the exception names the missing key |
| ServiceContainer.MessageOfNamedKey | core/Container.php:25 | any message that parses as naming `k` is exactly the not-bound message for `k` |
| ServiceContainer.NotBoundMessageInjective | core/Container.php:25 | two keys have the same not-bound message if and only if they are the same key |
| ServiceContainer.ResolveUnboundNamesKey | core/Container.php:21-25 | resolving an unbound key throws an `Exception` whose message names that key, and invokes nothing |
| ServiceContainer.ResolveBoundClosure | core/Container.php:21-22 | resolving a key bound to a closure returns that closure's outcome unwrapped, value or throwable, and logs exactly one invocation |
| ServiceContainer.ResolveBoundNonCallable | core/Container.php:22 | a bound value that is not callable makes `call_user_func` throw a `TypeError` without invoking anything |
| ServiceContainer.ResolveAfterBind | core/Container.php:11-22 | after `bind(k, f)`, resolving `k` is invoking `f`, whatever was bound before |
| ServiceContainer.ResolveOtherAfterBind | core/Container.php:13-22 | `bind(k, f)` does not change how any other key resolves |
| ServiceContainer.RebindReplaces | core/Container.php:13 | binding the same key twice equals binding it once with the second factory |
| ServiceContainer.BindsOfDistinctKeysCommute | core/Container.php:13 | binds of different keys can be done in either order |
| ServiceContainer.ResolveOnNew | core/Container.php:9-25 | on a new container, every key resolves to the not-bound exception and invokes nothing |
| AppHolder.SetContainer | core/App.php:11-14 | after `setContainer(c)`, `container()` returns `c`, whatever was held before |
| AppHolder.ContainerOf | core/App.php:16-19 | `container()` succeeds exactly when a container is held; otherwise it raises the return-type `TypeError` |
| AppHolder.AsMysqli | core/App.php:21 | the `mysqli` return type passes a connection or a throwable through unchanged and turns any other value into a `TypeError`; only connections are ever returned |
| AppHolder.BindOnHeld | core/App.php:16-19 | `App::container()->bind(k, f)` fails like `container()` when nothing is held; otherwise the held container becomes the one with `k` bound to `f` |
| AppHolder.DB | core/App.php:21-24 | `DB()` only ever returns a connection; before any `setContainer` it is a method call on null that invokes nothing; it never forgets invocations |
| AppHolder.ContainerBeforeSet | core/App.php:9-19 | with the static field still null, `container()` raises the `Container` return-type error |
| AppHolder.LastSetWins | core/App.php:13 | after a run of `setContainer` calls only the last container is held; an empty run changes nothing |
| AppHolder.DBIsResolveDB | core/App.php:21-24 | `DB()` is `resolve('DB')` on the held container: the same invocations, the same throwable, the same connection; any other value becomes the `mysqli` return-type error |
| AppHolder.DBUnbound | core/App.php:23 | if the held container has no `'DB'` binding, `DB()` propagates the not-bound exception naming `DB` and invokes nothing |
| AppHolder.DBSeesBindOnHeld | core/App.php:21-24 | after a "DB" factory is bound on the held container, `DB()` invokes that factory once and passes its connection or throwable through |
| Sessions.Step | core/Container.php:11-26 | a bind call invokes nothing and produces no outcome; a resolve call leaves the bindings unchanged and adds exactly one outcome |
| Sessions.RunBindings | core/Container.php:13 | after any run of calls, each key is bound to the factory of its last bind, found by scanning backwards; keys the run never binds keep their entry; resolves in between change nothing |
| Sessions.RunResults | core/Container.php:11-26 | a run yields one outcome per resolve, keeps earlier outcomes and invocations, and invokes at most one factory per resolve |
| Sessions.RepeatedResolveInvokesEveryTime | core/Container.php:19-26 | resolving a key bound to a closure `n` times invokes it `n` times, and the i-th outcome is what its i-th invocation produced; there is no memoisation |
| Sessions.ResolveTwiceInvokesTwice | core/Container.php:19-26 | two resolves of one key invoke its factory twice |
| Sessions.FreshConnectionEachResolve | core/Container.php:22 | a factory that opens a new connection per call gives two resolves two different connections |
| Bootstrap.BootstrapWiring | bootstrap.php:9-15 | after start-up the key set is exactly `{"DB"}`, bound to the connecting closure and held by the application; the wiring invokes no factory |
| Bootstrap.DBAfterBoot | bootstrap.php:10-15 | after start-up, `DB()` invokes the connecting closure once; a connection comes back unchanged and a throwable propagates; any other value the closure returns is the `mysqli` return-type error |
| Bootstrap.DBBeforeBoot | core/App.php:23 | `DB()` before start-up is a method call on null and invokes nothing |
| Bootstrap.ResolveCacheAfterBoot | bootstrap.php:9-13 | with only `"DB"` bound, resolving `"CACHE"` throws the not-bound exception for `CACHE`, whose message names `CACHE`, and invokes nothing |

## Left out

- `database/Database.php` is left out because it is I/O. It builds a `mysqli` connection from the configuration and echoes a message. It returns a failure string on a connection error. Its outcome is only what the oracle gives for the "DB" closure. That string never reaches `DB()`: the `mysqli` return type of `connect()` rejects it first, so the closure throws a `TypeError`, which `DB()` passes on.
- Loading the configuration file in `bootstrap.php` is left out because it is file I/O. The closure's captured configuration is represented by the closure's id.
- The `mysqli` driver, the database wire protocol and the configuration format are external and are not visible here.
- Exact PHP error texts are left out. The runtime's `TypeError` and `Error` messages are modelled by kind: the function name and the declared type, or the method called on null. Only the container's own message is modelled character by character.
- Non-string keys are left out, because every key bound or resolved in this code is a string. PHP's conversion of other key types (integers, `null`, booleans) in `$this->binding[$key]` is not modelled. Converting numeric strings to integer keys maps distinct strings to distinct keys, so a `map<string, _>` matches the array for string keys.
- Writes to the public `$binding` and `$container` fields from outside the two classes are not modelled, because only `bind` and `setContainer` write them in this code.
- A factory that itself calls the container or the holder is not modelled. Its effects are whatever the oracle returns; its nested invocations are not added to the log.
- PHP 8.0 or later is assumed; the code itself needs only PHP 7.1 (the `: void` return type).
  - In PHP 7, `call_user_func` on a non-callable only emits a warning and returns `null`. `resolve` would then return `Null`, and only `DB()` would throw. The model throws `CallbackTypeError` in `resolve`.
  - From PHP 8.1, mysqli's default error reporting makes `new mysqli` throw `mysqli_sql_exception` on a failed connection, so the failure-string path is not taken at all. Either way the "DB" closure throws, and the oracle covers both.
  - `Throwable` has only the kinds the container and the holder raise themselves. Any other class a factory throws, such as `mysqli_sql_exception`, is stood in for by an `Exception` with its message.
- Object identity of containers is left out. `setContainer` and `container()` pass a handle to one shared object, so in PHP a bind on a container after it was published is visible through `App`. The model treats containers as values. Such a bind must be written as publishing the updated container, `SetContainer(a, Bind(c, k, f))`, which is what `BindOnHeld` does for `App::container()->bind(k, f)`.
- Concurrency is left out. Each request runs single-threaded, and the static field is per process.
