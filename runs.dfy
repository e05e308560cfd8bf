/**
 * Any number of guarded steps: the hart stepped while the corrected guard
 * `Runnable` (what `Hart.ValidStep` computes) says it may go on, as the
 * header's guard and step are meant to be used.
 * The run is defined only while every step stays inside the buffer, since C
 * leaves an access outside it undefined.
 */
module Runs {
  import opened Memory
  import opened Decode
  import opened TinyRiscv
  import opened HartProperties

  /** Every step of a run of at most `n` guarded steps from `s` is defined. */
  predicate Defined(s: HartState, n: nat)
    decreases n
  {
    n == 0 || !Runnable(s) || (CanStep(s) && Defined(Next(s), n - 1))
  }

  /**
   * At most `n` steps from `s`, stopping early when the guard refuses. The
   * buffer and its size never change, and a well-formed hart stays so.
   */
  function Run(s: HartState, n: nat): (r: HartState)
    requires Defined(s, n)
    ensures r.memSize == s.memSize && |r.mem| == |s.mem|
    ensures WellFormed(s) ==> WellFormed(r)
    decreases n
  {
    if n == 0 || !Runnable(s) then s
    else
      StepKeepsMemory(s);
      Run(Next(s), n - 1)
  }

  /** No step of the run is a store (opcode 0x23). */
  predicate StoreFree(s: HartState, n: nat)
    requires Defined(s, n)
    decreases n
  {
    n == 0 || !Runnable(s) || (Opcode(Fetch(s)) != 0x23 && StoreFree(Next(s), n - 1))
  }

  /**
   * A run of `n + 1` steps is a run of `n` steps followed by one more
   * guarded step: the driver asks the guard again and steps if it agrees.
   */
  lemma {:induction false} OneMore(s: HartState, n: nat)
    requires Defined(s, n + 1)
    ensures Defined(s, n) && Defined(Run(s, n), 1)
    ensures Run(s, n + 1) == Run(Run(s, n), 1)
    ensures Run(Run(s, n), 1) == if Runnable(Run(s, n)) then Next(Run(s, n)) else Run(s, n)
    decreases n
  {
    if n != 0 && Runnable(s) {
      OneMore(Next(s), n - 1);
    }
  }

  /** A run that executes no store leaves the buffer exactly as it was. */
  lemma {:induction false} StoreFreeRunKeepsMemory(s: HartState, n: nat)
    requires Defined(s, n) && StoreFree(s, n)
    ensures Run(s, n).mem == s.mem
    decreases n
  {
    if n != 0 && Runnable(s) {
      StepKeepsMemory(s);
      StoreFreeRunKeepsMemory(Next(s), n - 1);
    }
  }
}
