/** The instruction set: five opcodes, each with a one-byte encoding. */
module Opcodes {
  import opened Wrappers
  import opened Prim

  datatype Opcode = Mov | Add | Sub | Nop | End

  /** The byte that stands for `op` (the enum's `u8` discriminant). */
  function Encode(op: Opcode): (b: Byte)
    ensures op == End <==> b == 0x87
    ensures op != End ==> b < 4
  {
    match op
    case Mov => 0x01
    case Add => 0x02
    case Sub => 0x03
    case Nop => 0x00
    case End => 0x87
  }

  /** The byte that ends a program (`Opcode::End as u8`). */
  const EndByte: Byte := Encode(End)

  /** Decodes a byte; every byte outside the five encodings is unknown. */
  function FromU8(b: Byte): (r: Option<Opcode>)
    ensures r.Some? <==> b in {0x00, 0x01, 0x02, 0x03, 0x87}
    ensures r.Some? ==> Encode(r.value) == b
  {
    match b
    case 0x01 => Some(Mov)
    case 0x02 => Some(Add)
    case 0x03 => Some(Sub)
    case 0x00 => Some(Nop)
    case 0x87 => Some(End)
    case _ => None
  }

  /** Decoding inverts the encoding. */
  lemma DecodeEncode(op: Opcode)
    ensures FromU8(Encode(op)) == Some(op)
  {
  }

  /** Distinct opcodes have distinct encodings. */
  lemma EncodeInjective(a: Opcode, b: Opcode)
    ensures Encode(a) == Encode(b) ==> a == b
  {
  }
}
