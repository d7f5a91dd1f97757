/**
 The slice of the PHP runtime that the service container touches: the values a
 factory can produce, the throwables that can escape a call, and what
 `call_user_func` does with a stored callback.

 A factory's behaviour lies outside the container (for the "DB" binding it opens
 a database connection), so it is not modelled here. Instead every call is
 recorded in an invocation log, and an `Oracle` supplied by the caller says what
 the call of a given closure produces, given everything invoked before it.
 */
module Php {

  datatype Option<+T> = None | Some(value: T)

  /** The PHP values a factory can return. `Mysqli` is a live connection
      object; `Other` stands for every remaining value (ints, arrays, objects
      of other classes), told apart only by a tag. */
  datatype Value =
    | Mysqli(handle: nat)
    | Str(text: string)
    | Null
    | Other(tag: nat)

  /** What can escape a call. */
  datatype Throwable =
      /** A plain `\Exception` with its message, as the container throws one
          for an unbound key; a factory may throw these too. */
    | Exception(message: string)
      /** The `TypeError` PHP raises when a function's declared return type
          rejects the value it is about to return. */
    | ReturnTypeError(member: string, declared: string)
      /** The `TypeError` raised by `call_user_func` when its argument is not
          callable. */
    | CallbackTypeError
      /** The `Error` raised by calling a method on `null`. */
    | NullMethodError(callee: string)

  /** A PHP call either returns a value or throws. */
  datatype Outcome<+T> = Returned(value: T) | Threw(error: Throwable)

  /** What `bind` stores. PHP does not check that it is callable; `Closure`
      covers closures and every other valid callable, each known by an id. */
  datatype Callback = Closure(id: nat) | NonCallable

  /** The ids of the closures invoked so far, oldest first. */
  type Log = seq<nat>

  /** The outcome of invoking closure `id` when `log` lists every earlier
      invocation: the world outside the container, as a parameter. */
  type Oracle = (nat, Log) -> Outcome<Value>

  /** The outcome of a call together with the invocation log after it. */
  datatype Call<+T> = Call(outcome: Outcome<T>, log: Log)

  /** `call_user_func($cb)`: a closure is invoked once and logged; a value
      that is not callable raises a `TypeError` before anything is invoked. */
  function Invoke(cb: Callback, oracle: Oracle, log: Log): (r: Call<Value>)
    ensures log <= r.log
    ensures |r.log| == |log| + 1 <==> cb.Closure?
    ensures cb.Closure? ==> r.log[|log|] == cb.id
    ensures cb.NonCallable? ==> r.log == log && r.outcome.Threw?
  {
    match cb
    case Closure(id) => Call(oracle(id, log), log + [id])
    case NonCallable => Call(Threw(CallbackTypeError), log)
  }
}
