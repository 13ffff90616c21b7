# A byte-code machine, modelled in Dafny

The modelled program is a tiny byte-code machine. A 32-cell byte memory is filled from a
text of hexadecimal tokens. A processor with a power flag, a cycle counter and three byte
registers then runs one fetch/execute pass over it:

- `rsp` holds the fetched opcode byte;
- `rip` holds the byte after it;
- `rax` is the accumulator.

The instruction set is Nop (0x00), Mov (0x01), Add (0x02), Sub (0x03) and End (0x87).
Every other byte is an unknown opcode.

The model is functional. Registers and memory are immutable datatypes. Every operation is
a pure function returning a `Result` whose error side is the Rust panic the program would
raise. The two loops of `main` also appear as methods written statement by statement, and
each method is proved equal to its functional definition.

Modules, one per concern of `src/main.rs`:

- `Wrappers`: `Option` and `Result`.
- `Prim`: `u8`/`i32` arithmetic under the two build profiles, and the panic kinds.
- `Opcodes`: the opcode enum and its decoder.
- `Memories`: the 32-cell store.
- `Cpus`: the processor record and its register operations.
- `Machine`: the fetch/execute loop and the theorems about a pass.
- `Image`: the token-to-byte image builder.
- `Program`: `main` as a whole, plus worked programs.

## Behaviour the model follows

These points describe what the code does.

- **The cursor advances by one byte.** The loop is `for index in 0..32`, so each operand
  byte is decoded and executed as an opcode in the next iteration.
- **No End byte means a panic.** Index 31 reads its operand from index 32, which is out of
  bounds. The model gives `Panicked(IndexOutOfBounds(32))`, not a graceful halt.
- **The `index == 32` test never fires.** The loop condition keeps `index` below 32, so
  halting happens exactly at the first 0x87.
- **Overflow depends on the build.** `u8 +=` and `u8 -=` panic in a debug build and wrap in
  a release build. The same holds for the `i32` cycle counter. Every arithmetic operation
  takes a `Build` parameter (`Debug` or `Release`), and both profiles are proved about.
  `Machine.DebugRun` shows the two profiles agree exactly when no executed pair overflows.
- **Add and Sub use the `rip` register, Mov uses its argument.** `execute` decodes its
  `rsp` argument, Mov copies its `rip` argument, and Add and Sub read `self.rip`. In the
  loop these are the same byte. The model keeps the distinction.
- **`load` has no length check.** Its argument is a `[u8; 32]`, so the length cannot be
  wrong. The model's `Cells` type is a sequence of exactly 32 bytes, and there is no
  malformed-load error.
- **Token parsing follows `u8::from_str_radix(_, 16)`.** One optional leading `+`, then at
  least one hex digit of either case, with a value of at most 255. Leading `0x` prefixes
  are first stripped repeatedly, as `trim_start_matches` does. A failed parse panics at
  the `unwrap`.
- **Worked programs.**
  - `[01 2A 87]` counts 2 cycles, because the operand 0x2A is then fetched and decoded as
    an unknown opcode (`Program.MovProgram`).
  - `[02 FF 02 01 87]` ends with `rax == 0x87` in a release build, because the operand
    0x01 runs as Mov with 0x87 as its operand; a debug build panics at the second Add
    (`Program.AddProgram`).
  - All-zero memory panics reading index 32 (`Program.ZeroProgram`).

## Model

| member | source | states |
|---|---|---|
| `Prim.AddU8` | src/main.rs:66-68 | `u8 +=`: a debug build panics with AddOverflow exactly when the sum exceeds 255; otherwise the result is the sum modulo 256 |
| `Prim.SubU8` | src/main.rs:70-72 | `u8 -=`: a debug build panics with SubOverflow exactly when the subtrahend is larger; otherwise adding the subtrahend back gives the original modulo 256 |
| `Prim.IncI32` | src/main.rs:52-64 | `i32 += 1` on the cycle counter: panics only in a debug build at I32Max; otherwise the result is one more, congruent modulo 2^32 |
| `Prim.SubUndoesAdd` | src/main.rs:66-72 | subtracting what was just added restores the value, in both builds |
| `Prim.AddUndoesSub` | src/main.rs:66-72 | adding what was just subtracted restores the value |
| `Prim.DebugAgreesWithRelease` | src/main.rs:62-72 | a release build never panics; a debug build that does not panic computes what a release build computes |
| `Opcodes.FromU8` | src/main.rs:15-25 | decoding succeeds exactly for 0x00, 0x01, 0x02, 0x03 and 0x87, and the opcode it returns has that byte as its discriminant |
| `Opcodes.Encode` | src/main.rs:5-13 | the `repr(u8)` discriminants: End alone is 0x87, and every other opcode is below 4 |
| `Opcodes.DecodeEncode` | src/main.rs:5-25 | decoding an opcode's discriminant gives that opcode back |
| `Opcodes.EncodeInjective` | src/main.rs:5-13 | distinct opcodes have distinct discriminants |
| `Memories.Zeroed` | src/main.rs:99-101 | the memory starts with all 32 cells at 0 |
| `Memories.Load` | src/main.rs:34-38 | the cell-by-cell copy leaves the memory equal to the argument |
| `Memories.Read` | src/main.rs:44-46 | succeeds exactly for an index below 32 and returns that cell; otherwise panics with IndexOutOfBounds(index) |
| `Memories.Write` | src/main.rs:40-42 | succeeds exactly for an index below 32, after which reading that index gives the value and every other cell is unchanged; otherwise panics |
| `Memories.ReadAfterWrite` | src/main.rs:40-46 | a read after a write sees the written value at that index and the old contents at every other index |
| `Memories.WriteWhatWasRead` | src/main.rs:40-46 | writing back the byte just read leaves the memory unchanged |
| `Memories.WriteOverwrites` | src/main.rs:40-46 | a second write to the same index overrides the first |
| `Cpus.Cycle` | src/main.rs:62-64 | changes nothing but the cycle counter. The new count is one more, modulo 2^32, so a release build wraps from I32Max to I32Min. Below I32Max it is exactly one more. Only a debug build at I32Max panics |
| `Cpus.Initial` | src/main.rs:89-97 | the processor starts powered on, with the cycle counter and all three registers at 0 |
| `Cpus.AddRip` | src/main.rs:66-68 | only `rax` changes, to `rax + rip` modulo 256; a debug build panics exactly when the sum exceeds 255 |
| `Cpus.SubRip` | src/main.rs:70-72 | only `rax` changes, to `rax - rip` modulo 256; a debug build panics exactly when `rip > rax` |
| `Cpus.Execute` | src/main.rs:74-83 | only the accumulator ever changes. Mov sets it to the operand argument. Add and Sub add or subtract `rip`, panicking only in a debug build. Nop, End and unknown bytes change nothing |
| `Cpus.SubAfterAddRestores` | src/main.rs:66-78 | executing Sub right after Add with the same `rip` restores the processor |
| `Machine.FirstEnd` | src/main.rs:116-126 | the first index holding 0x87 at or after the start: no earlier index holds it, and it is the array length when there is none |
| `Machine.Step` | src/main.rs:117-128 | one iteration stops exactly when the cell holds 0x87, turning power off. Otherwise it loads `rsp := mem[i]` and `rip := mem[i+1]`, applies the reference effect on `rax` and counts one cycle. At index 31 it panics reading index 32. A release build panics for no other reason |
| `Machine.Run` | src/main.rs:115-130 | a halt needs an End byte ahead; it leaves power off, `rsp` at 0x87 and, from a counter equal to the cursor, the cycle count at the index of that byte. Without an End byte the pass panics. The only panics are the read of index 32 and, in a debug build, the arithmetic overflows; in a release build only the read of index 32 |
| `Machine.Execution` | src/main.rs:115-130 | one pass from a fresh processor: a halt leaves power off, `rsp` at 0x87 and the cycle count at the first End index. Without an End byte it panics. The processor never raises a token panic or a cycle-counter overflow |
| `Machine.ReleaseRunFrom` | src/main.rs:115-130 | from any cursor before the first End byte, a release build halts there with the exact final register state |
| `Machine.ReleaseHaltsAtFirstEnd` | src/main.rs:115-130 | with `k` the first index of 0x87, a release build halts with power off, `rsp == 0x87` and `k` cycles. Also `rip == mem[k]` if `k > 0` and 0 otherwise, and `rax` is the byte-level reference accumulator over the pairs `(mem[j], mem[j+1])`, `j < k` |
| `Machine.NoEndPanics` | src/main.rs:116-121 | without an End byte a pass always panics, and in a release build with IndexOutOfBounds(32) |
| `Machine.DebugStep` | src/main.rs:66-72 | per iteration, a debug build panics on an overflowing Add or Sub and otherwise does what a release build does |
| `Machine.DebugRunFrom` | src/main.rs:115-130 | from any cursor, the debug run equals the release run if and only if no pair it executes overflows; otherwise the debug run panics with AddOverflow or SubOverflow |
| `Machine.DebugOverflowDiffers` | src/main.rs:66-72 | an overflowing Add or Sub at the cursor ends the debug run in AddOverflow or SubOverflow, which differs from the release run |
| `Machine.DebugSafeStep` | src/main.rs:66-72 | a pair that does not overflow moves both builds to the same next state, with the cycle counted and `rax` as the reference effect gives it |
| `Machine.DebugRun` | src/main.rs:115-130 | the whole debug pass equals the release pass if and only if no executed pair overflows; otherwise it ends in an arithmetic panic |
| `Machine.RunLoop` | src/main.rs:115-130 | the loop written as statements gives the same outcome as the functional pass, and on a halt the cycle count is the index of the first 0x87 |
| `Image.ParseHexByte` | src/main.rs:112 | a success means the string is non-empty and is either all hex digits or a single `+` followed by hex digits; the value is the number those digits denote. A string of hex digits parses exactly when it is non-empty and denotes at most 255 |
| `Image.TrimHexPrefix` | src/main.rs:111 | `trim_start_matches("0x")`: the result is no longer than the token and does not start with "0x" |
| `Image.TrimHexPrefixShape` | src/main.rs:111 | trimming leaves a suffix that does not start with "0x", and what it drops is "0x" repeated |
| `Image.ParseToken` | src/main.rs:111-112 | after the leading "0x"s are stripped, a string of hex digits parses exactly when it is non-empty and denotes at most 255, and to that number, so "100" and "0x100" fail. Any success is hex digits, or one `+` and hex digits. A bare token of one or two hex digits is that number |
| `Image.ImageOf` | src/main.rs:106-113 | the image is built exactly when each of the first 32 tokens parses. Then cell `i` holds token `i` and cells without a token are 0. Otherwise the panic names the first unparsable token, and every earlier token parses |
| `Image.BuildImage` | src/main.rs:99-113 | the builder loop written as statements gives exactly that image or that panic |
| `Image.ImageOfParsed` | src/main.rs:106-113 | cells holding the parse of every one of the first 32 tokens and 0 everywhere else are exactly the built image |
| `Image.PlusSignAccepted` | src/main.rs:112 | a single leading `+` before non-empty digits is accepted and does not change the parsed value |
| `Image.ParseFormatted` | src/main.rs:111-112 | a byte written as "0x" and two hex digits parses back to itself |
| `Image.ImageOfListing` | src/main.rs:106-113 | building the image from the listing of any 32-byte memory gives that memory back |
| `Image.ExtraTokensIgnored` | src/main.rs:106-109 | tokens after the 32nd, even unparsable ones, do not change the result |
| `Image.PrefixesStripped` | src/main.rs:111 | a token with an extra leading "0x" parses to the same thing |
| `Program.Boot` | src/main.rs:88-130 | an unparsable token among the first 32 is what panics with InvalidToken, at a position naming such a token; any other outcome means every such token parsed, and then the outcome is the pass over the built image |
| `Program.RunProgram` | src/main.rs:88-130 | `main` written as statements gives that result, and a halt leaves power off with `rsp == 0x87` |
| `Program.BootListing` | src/main.rs:88-130 | feeding `main` the listing of any 32-byte image runs exactly that image |
| `Program.BootListingHalts` | src/main.rs:88-130 | from tokens to final registers: in a release build, the listing of an image whose first 0x87 is at `k` halts with `k` cycles, `rsp == 0x87`, `rip` equal to `mem[k]` (0 when `k == 0`) and the reference accumulator |
| `Program.BootListingNoEnd` | src/main.rs:88-130 | the listing of an image without 0x87 panics in every build, and in a release build with IndexOutOfBounds(32) |
| `Program.OnePass` | src/main.rs:115-130 | a halted pass has power off, so the outer `while cpu.power` never starts a second pass |
| `Program.MovProgram` | src/main.rs:115-130 | `[01 2A 87]` halts with `rax == 0x2A`, `rip == rsp == 0x87` and 2 cycles in both builds |
| `Program.AddProgram` | src/main.rs:66-68 | `[02 FF 02 01 87]` halts with `rax == 0x87` after 4 cycles in a release build, and panics with AddOverflow in a debug build |
| `Program.SubProgram` | src/main.rs:70-72 | `[03 01 87]` halts with `rax == 0x87` after 2 cycles in a release build, and panics with SubOverflow in a debug build |
| `Program.ZeroProgram` | src/main.rs:116-121 | all-zero memory panics with IndexOutOfBounds(32) in both builds |
| `Program.UnknownOpcode` | src/main.rs:116-128 | at a cursor below 31, an unknown byte costs one cycle and leaves `rax` alone. It loads `rsp := mem[i]` and `rip := mem[i+1]`, and the cursor then moves on by one. At cursor 31 the operand read of index 32 panics instead |
| `Program.EndFirst` | src/main.rs:120-126 | a program starting with 0x87 halts with 0 cycles and `rip` still 0 |
| `Program.BadToken` | src/main.rs:112 | an unparsable second token panics with InvalidToken(1) before anything runs |

## Left out

- Reading `executable.g` and the `expect` on failure (src/main.rs:103-104). This is file
  I/O; the model takes the token sequence as input.
- `split_whitespace`: splitting the text into tokens is library behaviour, and the tokens
  are the model's input.
- `thread::sleep` pacing (src/main.rs:117). It is wall-clock time only and changes no state.
- All printing, including the "unknown opcode", "end" and "program ended" messages and the
  final register report (src/main.rs:79-81, 124, 132-135). This is console output. The
  final report's values are the fields of the `Halted` processor.
- The outer `while cpu.power` loop (src/main.rs:115) is modelled as a single pass, because
  a pass always ends in a halt with power off or in a panic (`Machine.Run`,
  `Program.OnePass`).
- The unused `memory` parameter of `execute` (src/main.rs:74). The model's `Execute` has
  no memory argument, so it cannot change memory.
- Image.ParseHexByte: models the digit, sign and range rules of `from_str_radix` but not
  the kind of error it reports, because every failure ends in the same panic at the `unwrap`.
- `load` and `write` are modelled (`Memories.Load`, `Memories.Write`) although `main` calls
  neither: the image builder stores into the cells directly.
