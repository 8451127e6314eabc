/** Forests of calls: what each call is, and the calls it makes, in execution order. */
module CallForests {
  datatype Call<T> = Call(body: T, inner: Forest<T>)
  datatype Forest<T> = Nil | Cons(call: Call<T>, rest: Forest<T>)

  function Size<T>(calls: Forest<T>): nat {
    if calls.Nil? then 0 else 1 + Size(calls.call.inner) + Size(calls.rest)
  }
}
