/** What schedulers run: fibers and functions, queued for one thread or for any. */
module Jobs {
  /** The code a function stands for: code of no interest here, a timer's wake-up of a parked fiber, or the
      timeout of a hooked call. */
  datatype Code = Plain(n: nat) | Wake(f: nat) | Timeout(call: nat)

  datatype Job = Fib(f: nat) | Fun(code: Code)

  datatype FiberState = INIT | HOLD | EXEC | TERM | READY | EXCEPT

  const ANY: int := -1  // no thread asked for

  datatype Entry = Entry(job: Job, thread: int)
}
