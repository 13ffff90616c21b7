/** The fetch/execute loop of `main`. The cursor visits every index in
    turn: at index `i` it fetches `mem[i]` into `rsp` and, unless that byte
    ends the program, `mem[i + 1]` into `rip`, executes and counts a cycle.
    The cursor moves by one byte, so operand bytes are decoded as opcodes
    too. */
module Machine {
  import opened Wrappers
  import opened Prim
  import opened Opcodes
  import opened Memories
  import opened Cpus

  /** What one iteration of the loop leads to. */
  datatype StepResult = Next(cpu: Cpu) | Stop(cpu: Cpu) | Fail(fault: Panic)

  /** How a pass of the loop ends: at an End byte, or in a panic. */
  datatype Outcome = Halted(cpu: Cpu) | Panicked(fault: Panic)

  /** The first index at or after `from` that holds the End byte, or
      `|mem|` when there is none. */
  function FirstEnd(mem: seq<Byte>, from: nat): (k: nat)
    requires from <= |mem|
    decreases |mem| - from
    ensures from <= k <= |mem|
    ensures k < |mem| ==> mem[k] == EndByte
    ensures forall j :: from <= j < k ==> mem[j] != EndByte
  {
    if from == |mem| then |mem|
    else if mem[from] == EndByte then from
    else FirstEnd(mem, from + 1)
  }

  /** One iteration of the loop body at cursor `index`. The read of
      `mem[index]` cannot fail because the cursor stays below `Size`. The
      `index == Size` alternative of `main`'s test is never true. */
  function Step(build: Build, m: Memory, c: Cpu, index: nat): (r: StepResult)
    requires index < Size
    ensures r.Stop? <==> m.mem[index] == EndByte
    ensures r.Stop? ==> r.cpu == c.(rsp := EndByte, power := false)
    ensures r.Next? ==> index + 1 < Size
    ensures r.Next? ==>
      r.cpu == c.(rsp := m.mem[index], rip := m.mem[index + 1], rax := r.cpu.rax,
                  currentCycle := r.cpu.currentCycle)
    ensures r.Next? ==> r.cpu.rax == Effect(c.rax, m.mem[index], m.mem[index + 1])
    ensures r.Next? && c.currentCycle < I32Max ==> r.cpu.currentCycle == c.currentCycle + 1
    ensures m.mem[index] != EndByte && index == Size - 1 ==> r == Fail(IndexOutOfBounds(Size))
    ensures r.Fail? && r.fault.IndexOutOfBounds? ==> index == Size - 1 && r.fault.index == Size
    ensures r.Fail? && build.Release? ==> r.fault == IndexOutOfBounds(Size)
    ensures r.Fail? ==> r.fault in {IndexOutOfBounds(Size), AddOverflow, SubOverflow, CycleOverflow}
    ensures r.Fail? && c.currentCycle < I32Max ==> r.fault != CycleOverflow
  {
    var c1 := c.(rsp := m.mem[index]);
    if c1.rsp != EndByte || index == Size then
      match Read(m, index + 1)
      case Err(e) => Fail(e)
      case Ok(rip) =>
        var c2 := c1.(rip := rip);
        match Execute(build, c2, c2.rsp, c2.rip)
        case Err(e) => Fail(e)
        case Ok(c3) =>
          match Cycle(build, c3)
          case Err(e) => Fail(e)
          case Ok(c4) => Next(c4)
    else
      Stop(c1.(power := false))
  }

  /** The loop from cursor `index` on, until it halts or panics. */
  function Run(build: Build, m: Memory, c: Cpu, index: nat): (r: Outcome)
    requires index < Size
    decreases Size - index
    ensures r.Halted? ==> !r.cpu.power && r.cpu.rsp == EndByte
    ensures r.Halted? ==> FirstEnd(m.mem, index) < Size
    ensures FirstEnd(m.mem, index) == Size ==> r.Panicked?
    ensures r.Panicked? && build.Release? ==> r.fault == IndexOutOfBounds(Size)
    ensures r.Panicked? ==> r.fault in {IndexOutOfBounds(Size), AddOverflow, SubOverflow, CycleOverflow}
    ensures r.Panicked? && c.currentCycle == index ==> r.fault != CycleOverflow
    ensures r.Halted? && c.currentCycle == index ==> r.cpu.currentCycle == FirstEnd(m.mem, index)
  {
    match Step(build, m, c, index)
    case Stop(c') => Halted(c')
    case Fail(e) => Panicked(e)
    case Next(c') => Run(build, m, c', index + 1)
  }

  /** The whole program run: one pass of the loop from a fresh processor. */
  function Execution(build: Build, m: Memory): (r: Outcome)
    ensures r.Halted? ==>
      !r.cpu.power && r.cpu.rsp == EndByte && r.cpu.currentCycle == FirstEnd(m.mem, 0)
    ensures FirstEnd(m.mem, 0) == Size ==> r.Panicked?
    // the processor never raises a token panic
    ensures r.Panicked? ==> r.fault in {IndexOutOfBounds(Size), AddOverflow, SubOverflow}
  {
    Run(build, m, Initial(), 0)
  }

  // ---------------------------------------------------------------------
  // Reference semantics of the accumulator, stated on raw bytes.

  /** The accumulator after executing opcode byte `op` with operand byte
      `operand`, with wrap-around arithmetic. */
  function Effect(rax: Byte, op: Byte, operand: Byte): Byte
  {
    if op == 0x01 then operand
    else if op == 0x02 then (rax + operand) % 0x100
    else if op == 0x03 then (rax - operand) % 0x100
    else rax
  }

  /** Whether that execution leaves the range of `u8`. */
  predicate Overflows(rax: Byte, op: Byte, operand: Byte)
  {
    (op == 0x02 && rax + operand > 0xff) || (op == 0x03 && rax < operand)
  }

  /** The accumulator after the pairs `(mem[j], mem[j + 1])` for every
      `j < n` have been executed, starting from 0. */
  function Acc(mem: Cells, n: nat): Byte
    requires n < Size
  {
    if n == 0 then 0 else Effect(Acc(mem, n - 1), mem[n - 1], mem[n])
  }

  /** No executed pair with cursor in `[from, to)` overflows. */
  predicate Safe(mem: Cells, from: nat, to: nat)
    requires to < Size
  {
    forall j :: from <= j < to ==> !Overflows(Acc(mem, j), mem[j], mem[j + 1])
  }

  /** How many pairs a pass executes: one per index before the first End
      byte, and at most `Size - 1` since the last index cannot fetch an
      operand. */
  function Executed(mem: Cells): nat
  {
    var k := FirstEnd(mem, 0);
    if k < Size then k else Size - 1
  }

  // ---------------------------------------------------------------------
  // Theorems about a pass.

  /** From any cursor at or before the first End byte, a release build
      halts at that byte, having counted one cycle per index visited. */
  lemma {:induction false} ReleaseRunFrom(m: Memory, c: Cpu, index: nat)
    requires index < Size && FirstEnd(m.mem, index) < Size
    requires c.currentCycle == index && c.rax == Acc(m.mem, index)
    decreases Size - index
    ensures var k := FirstEnd(m.mem, index);
      Run(Release, m, c, index) ==
        Halted(c.(power := false, rsp := EndByte, currentCycle := k, rax := Acc(m.mem, k),
                  rip := if k == index then c.rip else m.mem[k]))
  {
    if m.mem[index] != EndByte {
      var s := Step(Release, m, c, index);
      assert s.Next?;
      ReleaseRunFrom(m, s.cpu, index + 1);
    }
  }

  /** A release build halts at the first End byte `k`: power off, `rsp`
      holding the End byte, `k` cycles counted, `rip` holding the byte at
      `k` (fetched as the operand at `k - 1`) and the accumulator as the
      byte-level reference semantics says. */
  lemma ReleaseHaltsAtFirstEnd(m: Memory)
    requires FirstEnd(m.mem, 0) < Size
    ensures var k := FirstEnd(m.mem, 0);
      Execution(Release, m) ==
        Halted(Cpu(power := false, currentCycle := k, rip := if k == 0 then 0 else m.mem[k],
                   rsp := EndByte, rax := Acc(m.mem, k)))
  {
    ReleaseRunFrom(m, Initial(), 0);
  }

  /** Without an End byte, the last index fetches its operand from index
      `Size`, past the array: the pass never ends normally. */
  lemma NoEndPanics(build: Build, m: Memory, c: Cpu, index: nat)
    requires index < Size && FirstEnd(m.mem, index) == Size
    ensures Run(build, m, c, index).Panicked?
    ensures build.Release? ==> Run(build, m, c, index) == Panicked(IndexOutOfBounds(Size))
  {
  }

  /** Step by step, a debug build does what a release build does unless
      the executed pair overflows, and then it panics. */
  lemma DebugStep(m: Memory, c: Cpu, index: nat)
    requires index < Size - 1 && m.mem[index] != EndByte && c.currentCycle < I32Max
    ensures Overflows(c.rax, m.mem[index], m.mem[index + 1]) ==>
      Step(Debug, m, c, index).Fail? &&
      Step(Debug, m, c, index).fault in {AddOverflow, SubOverflow}
    ensures !Overflows(c.rax, m.mem[index], m.mem[index + 1]) ==>
      Step(Debug, m, c, index) == Step(Release, m, c, index)
  {
  }

  /** From any cursor, the debug run equals the release run if and only if
      no pair it still executes overflows. */
  lemma {:induction false} DebugRunFrom(m: Memory, c: Cpu, index: nat)
    requires index < Size
    requires c.currentCycle == index && c.rax == Acc(m.mem, index)
    decreases Size - index
    ensures var n := if FirstEnd(m.mem, index) < Size then FirstEnd(m.mem, index) else Size - 1;
      && (Safe(m.mem, index, n) <==> Run(Debug, m, c, index) == Run(Release, m, c, index))
      && (!Safe(m.mem, index, n) ==>
            Run(Debug, m, c, index).Panicked? &&
            Run(Debug, m, c, index).fault in {AddOverflow, SubOverflow})
  {
    if m.mem[index] != EndByte && index < Size - 1 {
      var n := if FirstEnd(m.mem, index) < Size then FirstEnd(m.mem, index) else Size - 1;
      assert FirstEnd(m.mem, index) == FirstEnd(m.mem, index + 1);
      DebugStep(m, c, index);
      if Overflows(c.rax, m.mem[index], m.mem[index + 1]) {
        DebugOverflowDiffers(m, c, index);
        assert !Safe(m.mem, index, n);
      } else {
        var c' := Step(Release, m, c, index).cpu;
        DebugSafeStep(m, c, index);
        DebugRunFrom(m, c', index + 1);
        SafeFrom(m.mem, index, n);
      }
    }
  }

  /** An overflowing pair at the cursor ends the debug run in an arithmetic
      panic, which the release run never produces. */
  lemma DebugOverflowDiffers(m: Memory, c: Cpu, index: nat)
    requires index < Size - 1 && m.mem[index] != EndByte && c.currentCycle < I32Max
    requires Overflows(c.rax, m.mem[index], m.mem[index + 1])
    ensures Run(Debug, m, c, index).Panicked?
    ensures Run(Debug, m, c, index).fault in {AddOverflow, SubOverflow}
    ensures Run(Debug, m, c, index) != Run(Release, m, c, index)
  {
    DebugStep(m, c, index);
  }

  /** A pair that does not overflow moves both builds to the same next
      state, the one the reference semantics describes. */
  lemma DebugSafeStep(m: Memory, c: Cpu, index: nat)
    requires index < Size - 1 && m.mem[index] != EndByte && c.currentCycle < I32Max
    requires !Overflows(c.rax, m.mem[index], m.mem[index + 1])
    ensures var c' := Step(Release, m, c, index).cpu;
      && Step(Release, m, c, index).Next?
      && c'.currentCycle == c.currentCycle + 1
      && c'.rax == Effect(c.rax, m.mem[index], m.mem[index + 1])
      && Run(Debug, m, c, index) == Run(Debug, m, c', index + 1)
      && Run(Release, m, c, index) == Run(Release, m, c', index + 1)
  {
    DebugStep(m, c, index);
  }

  /** Safety from the cursor on is safety of the pair at the cursor and
      of the rest. */
  lemma SafeFrom(mem: Cells, index: nat, n: nat)
    requires index < n < Size
    ensures Safe(mem, index, n) <==>
      !Overflows(Acc(mem, index), mem[index], mem[index + 1]) && Safe(mem, index + 1, n)
  {
  }

  /** A debug build runs exactly like a release build when no executed
      pair overflows, and otherwise panics with an arithmetic overflow. */
  lemma DebugRun(m: Memory)
    ensures Safe(m.mem, 0, Executed(m.mem)) <==> Execution(Debug, m) == Execution(Release, m)
    ensures !Safe(m.mem, 0, Executed(m.mem)) ==>
      Execution(Debug, m).Panicked? && Execution(Debug, m).fault in {AddOverflow, SubOverflow}
  {
    DebugRunFrom(m, Initial(), 0);
  }

  /** The loop of `main`, as `main` writes it. */
  method RunLoop(build: Build, m: Memory) returns (o: Outcome)
    ensures o == Execution(build, m)
    ensures o.Halted? ==> o.cpu.currentCycle == FirstEnd(m.mem, 0) && !o.cpu.power
  {
    var cpu := Initial();
    var index: nat := 0;
    while true
      invariant index < Size
      invariant cpu.currentCycle == index
      invariant Run(build, m, cpu, index) == Run(build, m, Initial(), 0)
      decreases Size - index
    {
      ghost var before := cpu;
      cpu := cpu.(rsp := m.mem[index]);
      if cpu.rsp != EndByte || index == Size {
        var rip := Read(m, index + 1);
        if rip.Err? {
          assert Step(build, m, before, index) == Fail(rip.error);
          return Panicked(rip.error);
        }
        cpu := cpu.(rip := rip.value);
        var executed := Execute(build, cpu, cpu.rsp, cpu.rip);
        if executed.Err? {
          assert Step(build, m, before, index) == Fail(executed.error);
          return Panicked(executed.error);
        }
        cpu := executed.value;
      } else {
        cpu := cpu.(power := false);
        assert Step(build, m, before, index) == Stop(cpu);
        return Halted(cpu);
      }
      // the counter equals the cursor, far below I32Max: it cannot overflow
      cpu := Cycle(build, cpu).value;
      assert Step(build, m, before, index) == Next(cpu);
      index := index + 1;
    }
  }
}
