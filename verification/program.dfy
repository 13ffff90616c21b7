/** The whole of `main`: build the memory image from the program tokens,
    then make one pass of the fetch/execute loop from a fresh processor. */
module Program {
  import opened Wrappers
  import opened Prim
  import opened Opcodes
  import opened Memories
  import opened Cpus
  import opened Image
  import opened Machine

  /** What the program does with the given tokens. */
  function Boot(build: Build, tokens: seq<string>): (r: Outcome)
    ensures ImageOf(tokens).Err? ==> r == Panicked(ImageOf(tokens).error)
    ensures ImageOf(tokens).Ok? ==> r == Execution(build, Memory(ImageOf(tokens).value))
    // at the level of tokens: an unparsable token among the first `Size` is
    // the panic, and any other outcome means every such token parsed
    ensures r.Panicked? && r.fault.InvalidToken? ==>
      r.fault.position < Considered(tokens) && ParseToken(tokens[r.fault.position]).None?
    ensures (exists i :: 0 <= i < Considered(tokens) && ParseToken(tokens[i]).None?) ==>
      r.Panicked? && r.fault.InvalidToken?
    ensures !(r.Panicked? && r.fault.InvalidToken?) ==>
      forall i :: 0 <= i < Considered(tokens) ==> ParseToken(tokens[i]).Some?
  {
    match ImageOf(tokens)
    case Err(e) => Panicked(e)
    case Ok(cells) => Execution(build, Memory(cells))
  }

  /** `main` as a sequence of statements. */
  method RunProgram(build: Build, tokens: seq<string>) returns (o: Outcome)
    ensures o == Boot(build, tokens)
    ensures o.Halted? ==> !o.cpu.power && o.cpu.rsp == EndByte
  {
    var image := BuildImage(tokens);
    if image.Err? {
      return Panicked(image.error);
    }
    o := RunLoop(build, Memory(image.value));
  }

  /** Running the listing of a memory image runs that image. */
  lemma BootListing(build: Build, mem: Cells)
    ensures Boot(build, Listing(mem)) == Execution(build, Memory(mem))
  {
    ImageOfListing(mem);
  }

  /** From tokens to final registers: a release build fed the listing of an
      image with an End byte halts there with the exact final state. */
  lemma BootListingHalts(mem: Cells)
    requires FirstEnd(mem, 0) < Size
    ensures var k := FirstEnd(mem, 0);
      Boot(Release, Listing(mem)) ==
        Halted(Cpu(power := false, currentCycle := k, rip := if k == 0 then 0 else mem[k],
                   rsp := EndByte, rax := Acc(mem, k)))
  {
    BootListing(Release, mem);
    ReleaseHaltsAtFirstEnd(Memory(mem));
  }

  /** Fed the listing of an image without an End byte, every build panics. */
  lemma BootListingNoEnd(build: Build, mem: Cells)
    requires FirstEnd(mem, 0) == Size
    ensures Boot(build, Listing(mem)).Panicked?
    ensures build.Release? ==> Boot(build, Listing(mem)) == Panicked(IndexOutOfBounds(Size))
  {
    BootListing(build, mem);
    NoEndPanics(build, Memory(mem), Initial(), 0);
  }

  /** A pass of the loop always ends in a halt or a panic, so the outer
      `while cpu.power` loop never starts a second pass. */
  lemma OnePass(build: Build, m: Memory)
    ensures Execution(build, m).Halted? ==> !Execution(build, m).cpu.power
  {
  }

  // ---------------------------------------------------------------------
  // Worked programs. Because the cursor moves by one byte, operand bytes
  // are executed as opcodes as well.

  /** A short program followed by zero cells, as the image builder makes
      it from that many tokens. */
  function Padded(bytes: seq<Byte>): (m: Memory)
    requires |bytes| <= Size
    ensures m.mem[..|bytes|] == bytes
    ensures forall i :: |bytes| <= i < Size ==> m.mem[i] == 0
  {
    Memory(bytes + seq(Size - |bytes|, _ => 0))
  }

  /** Mov 0x2A, End: the operand 0x2A is then executed as an unknown
      opcode, so two cycles are counted before the End byte. */
  lemma MovProgram(build: Build)
    ensures Execution(build, Padded([0x01, 0x2A, 0x87])) ==
      Halted(Cpu(power := false, currentCycle := 2, rip := 0x87, rsp := 0x87, rax := 0x2A))
  {
    var m := Padded([0x01, 0x2A, 0x87]);
    assert m.mem[0] == 0x01 && m.mem[1] == 0x2A && m.mem[2] == 0x87;
    assert FirstEnd(m.mem, 0) == 2;
    assert Safe(m.mem, 0, 2);
    DebugRun(m);
    ReleaseHaltsAtFirstEnd(m);
  }

  /** Add 0xFF, Add 0x01, End. A release build wraps the second addition
      to 0, after which the operand 0x01 runs as Mov with the End byte as
      its operand; a debug build panics at the second addition. */
  lemma AddProgram()
    ensures Execution(Release, Padded([0x02, 0xFF, 0x02, 0x01, 0x87])) ==
      Halted(Cpu(power := false, currentCycle := 4, rip := 0x87, rsp := 0x87, rax := 0x87))
    ensures Execution(Debug, Padded([0x02, 0xFF, 0x02, 0x01, 0x87])) == Panicked(AddOverflow)
  {
    var m := Padded([0x02, 0xFF, 0x02, 0x01, 0x87]);
    assert m.mem[0] == 0x02 && m.mem[1] == 0xFF && m.mem[2] == 0x02 && m.mem[3] == 0x01 && m.mem[4] == 0x87;
    assert FirstEnd(m.mem, 0) == 4;
    assert Acc(m.mem, 1) == 0xFF;
    assert Acc(m.mem, 2) == 0xFF;
    assert Overflows(Acc(m.mem, 2), m.mem[2], m.mem[3]);
    ReleaseHaltsAtFirstEnd(m);
    DebugRun(m);
    var c := Initial();
    var s0 := Step(Debug, m, c, 0);
    var s1 := Step(Debug, m, s0.cpu, 1);
    assert s1.cpu.rax == 0xFF && s1.cpu.rip == 0x02;
    assert Step(Debug, m, s1.cpu, 2) == Fail(AddOverflow);
  }

  /** Sub 0x01, End from a zero accumulator: a release build wraps to 0xFF
      before the operand 0x01 runs as Mov; a debug build panics. */
  lemma SubProgram()
    ensures Execution(Release, Padded([0x03, 0x01, 0x87])) ==
      Halted(Cpu(power := false, currentCycle := 2, rip := 0x87, rsp := 0x87, rax := 0x87))
    ensures Execution(Debug, Padded([0x03, 0x01, 0x87])) == Panicked(SubOverflow)
  {
    var m := Padded([0x03, 0x01, 0x87]);
    assert m.mem[0] == 0x03 && m.mem[1] == 0x01 && m.mem[2] == 0x87;
    assert FirstEnd(m.mem, 0) == 2;
    ReleaseHaltsAtFirstEnd(m);
    assert Step(Debug, m, Initial(), 0) == Fail(SubOverflow);
  }

  /** All-zero memory is 31 Nops and no End byte: both builds panic when
      the last index reads its operand from past the array. */
  lemma ZeroProgram(build: Build)
    ensures Execution(build, Zeroed()) == Panicked(IndexOutOfBounds(Size))
  {
    var m := Zeroed();
    assert FirstEnd(m.mem, 0) == Size by {
      forall j | 0 <= j < Size ensures m.mem[j] != EndByte { }
    }
    NoEndPanics(Release, m, Initial(), 0);
    DebugRun(m);
    assert Safe(m.mem, 0, Executed(m.mem)) by {
      forall j | 0 <= j < Size - 1 ensures Acc(m.mem, j) == 0 {
        ZeroAcc(m.mem, j);
      }
    }
  }

  lemma {:induction false} ZeroAcc(mem: Cells, n: nat)
    requires n < Size && forall i :: 0 <= i < Size ==> mem[i] == 0
    ensures Acc(mem, n) == 0
  {
    if n > 0 {
      ZeroAcc(mem, n - 1);
    }
  }

  /** Below the last index, an unknown opcode byte costs one cycle, leaves
      the accumulator alone and the cursor moves on by one; at the last
      index its operand read panics like any other. */
  lemma UnknownOpcode(build: Build, m: Memory, c: Cpu, index: nat)
    requires index < Size && FromU8(m.mem[index]).None? && c.currentCycle < I32Max
    ensures index < Size - 1 ==>
      Step(build, m, c, index) ==
        Next(c.(rsp := m.mem[index], rip := m.mem[index + 1], currentCycle := c.currentCycle + 1))
    ensures index == Size - 1 ==> Step(build, m, c, index) == Fail(IndexOutOfBounds(Size))
  {
  }

  /** A program that starts with the End byte halts before any cycle, with
      `rip` still 0. */
  lemma EndFirst(build: Build, m: Memory)
    requires m.mem[0] == 0x87
    ensures Execution(build, m) ==
      Halted(Cpu(power := false, currentCycle := 0, rip := 0, rsp := 0x87, rax := 0))
  {
  }

  /** An unparsable token among the first `Size` stops the program before
      the processor runs. */
  lemma BadToken(build: Build)
    ensures Boot(build, ["0x01", "0xzz"]) == Panicked(InvalidToken(1))
  {
    ParseFormatted(0x01);
    assert FormatByte(0x01) == "0x01";
    var t := "0xzz";
    assert TrimHexPrefix(t) == "zz" by { assert t[2..] == "zz"; }
    assert ParseToken(t).None? by { assert !IsHexDigit('z'); }
  }
}
