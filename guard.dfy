/**
 * `tinyriscv_valid_step` as written: it reads the word at the pc first and
 * only then compares the pc with `mem_size + tinyriscv_MEM_OFFSET`, a `u32`
 * sum. The lemmas below exhibit the inputs on which that guard and the
 * intended one (`TinyRiscv.Runnable`, which `Hart.ValidStep` computes)
 * part ways.
 */
module StepGuard {
  import opened Memory
  import opened TinyRiscv

  /** The second test of `tinyriscv_valid_step`, passing when `pc < mem_size + base` in 32-bit arithmetic. */
  predicate BoundTestAsWritten(pc: bv32, memSize: bv32)
  {
    !(pc >= memSize + Base)
  }

  /**
   * `tinyriscv_valid_step` as written. Its first test reads the word at the
   * pc, so it is defined only where that word lies in the buffer, whatever
   * the bound test would have said.
   */
  predicate ValidStepAsWritten(s: HartState)
    requires InBounds(|s.mem|, s.pc, 4)
  {
    Fetch(s) != 0 && BoundTestAsWritten(s.pc, s.memSize)
  }

  /**
   * With an 8-byte buffer the pc one past its end fails the bound test, but
   * the fetch before that test already reads four bytes outside the buffer.
   */
  lemma FetchPrecedesBoundTest()
    ensures !BoundTestAsWritten(Base + 8, 8)
    ensures !InBounds(Unsigned(8), Base + 8, 4)
  {
  }

  /**
   * The bound test looks at the first byte only and has no lower bound: with
   * an 8-byte buffer it passes a word that straddles the end and an address
   * below the buffer.
   */
  lemma BoundTestTooWeak()
    ensures BoundTestAsWritten(Base + 6, 8) && !InBounds(Unsigned(8), Base + 6, 4)
    ensures BoundTestAsWritten(0, 8) && !InBounds(Unsigned(8), 0, 4)
  {
  }

  /** A buffer of 2^31 bytes has room for a word at its first address. */
  lemma HalfAddressSpaceHoldsWord()
    ensures Unsigned(0x8000_0000) >= 4
  {
    assert Unsigned(0x8000_0000) == Unsigned(0x7FFF_FFFF) + 1;
    assert Unsigned(0x7FFF_FFFF) == Unsigned(0x7FFF_FFFE) + 1;
    assert Unsigned(0x7FFF_FFFE) == Unsigned(0x7FFF_FFFD) + 1;
    assert Unsigned(0x7FFF_FFFD) == Unsigned(0x7FFF_FFFC) + 1;
  }

  /**
   * With a buffer of 2^31 bytes, `mem_size + base` wraps to 0 and the bound
   * test fails at every pc, although the hart at the first address with a
   * nonzero word there can step.
   */
  lemma BoundTestWraps(s: HartState)
    requires WellFormed(s) && s.memSize == 0x8000_0000 && s.pc == Base && |s.mem| >= 4
    requires WordAt(s.mem, 0) != 0
    ensures forall pc: bv32 :: !BoundTestAsWritten(pc, s.memSize)
    ensures Runnable(s)
  {
    HalfAddressSpaceHoldsWord();
    assert Offset(Base) == 0;
  }

  /** The address `mem_size` bytes past `Base` has offset `mem_size`, when the sum does not wrap. */
  lemma OffsetOfEnd(m: bv32)
    requires Base <= Base + m
    ensures Offset(Base + m) == Unsigned(m)
  {
    assert (Base + m) - Base == m;
  }

  /**
   * The intended guard refuses the pc one past the buffer, whatever the
   * buffer's size: there is no word there to fetch.
   */
  lemma RunnableFalseAtEnd(s: HartState)
    requires WellFormed(s) && s.pc == Base + s.memSize
    ensures !Runnable(s)
  {
    if Base <= s.pc {
      OffsetOfEnd(s.memSize);
      assert Offset(s.pc) == |s.mem|;
    }
  }

  /** The intended guard refuses the inputs the bound test lets through: the straddling word and the address below the buffer. */
  lemma RunnableRejectsOutside(s: HartState)
    requires WellFormed(s) && s.memSize == 8 && (s.pc == Base + 6 || s.pc == 0)
    ensures !Runnable(s)
  {
  }
}
