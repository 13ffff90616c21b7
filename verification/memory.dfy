/** The 32-cell byte store. */
module Memories {
  import opened Wrappers
  import opened Prim

  /** Number of cells. */
  const Size: nat := 32

  /** Exactly `Size` bytes: the length is fixed by the array type. */
  type Cells = s: seq<Byte> | |s| == Size witness seq(Size, _ => 0)

  datatype Memory = Memory(mem: Cells)

  /** The store as `main` creates it, before any token is applied. */
  function Zeroed(): (m: Memory)
    ensures forall i :: 0 <= i < Size ==> m.mem[i] == 0
  {
    Memory(seq(Size, _ => 0))
  }

  /** Copies `values` into the store one cell at a time. */
  method Load(m: Memory, values: Cells) returns (r: Memory)
    ensures r.mem == values
  {
    r := m;
    var index := 0;
    while index < Size
      invariant index <= Size
      invariant r.mem[..index] == values[..index]
    {
      r := r.(mem := r.mem[index := values[index]]);
      index := index + 1;
    }
    assert r.mem == r.mem[..Size];
    assert values == values[..Size];
  }

  /** The byte at `index`; an index past the array panics. */
  function Read(m: Memory, index: nat): (r: Result<Byte, Panic>)
    ensures r.Ok? <==> index < Size
    ensures r.Ok? ==> r.value == m.mem[index]
    ensures r.Err? ==> r.error == IndexOutOfBounds(index)
  {
    if index < Size then Ok(m.mem[index]) else Err(IndexOutOfBounds(index))
  }

  /** Stores `value` at `index`; an index past the array panics. */
  function Write(m: Memory, index: nat, value: Byte): (r: Result<Memory, Panic>)
    ensures r.Ok? <==> index < Size
    ensures r.Err? ==> r.error == IndexOutOfBounds(index)
    ensures r.Ok? ==> Read(r.value, index) == Ok(value)
    ensures r.Ok? ==> forall j :: 0 <= j < Size && j != index ==> r.value.mem[j] == m.mem[j]
  {
    if index < Size then Ok(Memory(m.mem[index := value])) else Err(IndexOutOfBounds(index))
  }

  /** A read after a write sees the written value at that index and the
      old contents everywhere else. */
  lemma ReadAfterWrite(m: Memory, i: nat, j: nat, value: Byte)
    requires i < Size
    ensures Read(Write(m, i, value).value, j) == if i == j then Ok(value) else Read(m, j)
  {
  }

  /** Writing back the byte just read changes nothing. */
  lemma WriteWhatWasRead(m: Memory, i: nat)
    requires i < Size
    ensures Write(m, i, Read(m, i).value) == Ok(m)
  {
    assert m.mem[i := m.mem[i]] == m.mem;
  }

  /** A second write to the same index overrides the first. */
  lemma WriteOverwrites(m: Memory, i: nat, v: Byte, w: Byte)
    requires i < Size
    ensures Write(Write(m, i, v).value, i, w) == Write(m, i, w)
  {
    assert m.mem[i := v][i := w] == m.mem[i := w];
  }
}
