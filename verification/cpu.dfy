/** The processor: a power flag, a cycle counter and three byte registers.
    `rsp` holds the fetched opcode byte, `rip` the byte after it and `rax`
    is the accumulator. */
module Cpus {
  import opened Wrappers
  import opened Prim
  import opened Opcodes

  datatype Cpu = Cpu(power: bool, currentCycle: I32, rip: Byte, rsp: Byte, rax: Byte)

  /** The processor as `main` creates it. */
  function Initial(): (c: Cpu)
    ensures c.power && c.currentCycle == 0 && c.rip == 0 && c.rsp == 0 && c.rax == 0
  {
    Cpu(power := true, currentCycle := 0, rip := 0, rsp := 0, rax := 0)
  }

  /** Counts one cycle. */
  function Cycle(build: Build, c: Cpu): (r: Result<Cpu, Panic>)
    ensures r.Err? <==> build.Debug? && c.currentCycle == I32Max
    ensures r.Ok? ==> r.value == c.(currentCycle := r.value.currentCycle)
    ensures r.Ok? ==> (r.value.currentCycle - c.currentCycle - 1) % 0x1_0000_0000 == 0
    ensures r.Ok? && c.currentCycle < I32Max ==> r.value.currentCycle == c.currentCycle + 1
  {
    match IncI32(build, c.currentCycle)
    case Err(e) => Err(e)
    case Ok(n) => Ok(c.(currentCycle := n))
  }

  /** `rax += rip`. */
  function AddRip(build: Build, c: Cpu): (r: Result<Cpu, Panic>)
    ensures r.Err? <==> build.Debug? && c.rax + c.rip > 0xff
    ensures r.Ok? ==> r.value == c.(rax := (c.rax + c.rip) % 0x100)
  {
    match AddU8(build, c.rax, c.rip)
    case Err(e) => Err(e)
    case Ok(v) => Ok(c.(rax := v))
  }

  /** `rax -= rip`. */
  function SubRip(build: Build, c: Cpu): (r: Result<Cpu, Panic>)
    ensures r.Err? <==> build.Debug? && c.rax < c.rip
    ensures r.Ok? ==> r.value == c.(rax := (c.rax - c.rip) % 0x100)
  {
    match SubU8(build, c.rax, c.rip)
    case Err(e) => Err(e)
    case Ok(v) => Ok(c.(rax := v))
  }

  /** Executes the opcode byte `rsp`. Mov takes its operand from the
      argument `rip`, Add and Sub from the register `rip`; in the
      fetch/execute loop the two are the same byte. */
  function Execute(build: Build, c: Cpu, rsp: Byte, rip: Byte): (r: Result<Cpu, Panic>)
    // only the accumulator can change
    ensures r.Ok? ==> r.value == c.(rax := r.value.rax)
    // only Add and Sub can panic, and only in a debug build
    ensures r.Err? ==> build.Debug? && FromU8(rsp) in {Some(Add), Some(Sub)}
    ensures FromU8(rsp) == Some(Mov) ==> r == Ok(c.(rax := rip))
    ensures FromU8(rsp) == Some(Add) ==>
      && (r.Err? <==> build.Debug? && c.rax + c.rip > 0xff)
      && (r.Err? ==> r.error == AddOverflow)
      && (r.Ok? ==> r.value.rax == (c.rax + c.rip) % 0x100)
    ensures FromU8(rsp) == Some(Sub) ==>
      && (r.Err? <==> build.Debug? && c.rax < c.rip)
      && (r.Err? ==> r.error == SubOverflow)
      && (r.Ok? ==> (r.value.rax + c.rip) % 0x100 == c.rax)
    ensures FromU8(rsp) in {Some(Nop), Some(End), None} ==> r == Ok(c)
  {
    match FromU8(rsp)
    case Some(Add) => AddRip(build, c)
    case Some(Sub) => SubRip(build, c)
    case Some(Mov) => Ok(c.(rax := rip))
    case Some(Nop) => Ok(c)
    case Some(End) => Ok(c)
    case None => Ok(c)
  }

  /** Executing Sub right after Add with the same `rip` restores the
      accumulator. */
  lemma SubAfterAddRestores(build: Build, c: Cpu)
    requires Execute(build, c, Encode(Add), c.rip).Ok?
    ensures Execute(build, Execute(build, c, Encode(Add), c.rip).value, Encode(Sub), c.rip) == Ok(c)
  {
    SubUndoesAdd(build, c.rax, c.rip);
  }
}
