# CHIP-8 execution engine, modelled in Dafny

This project models the execution engine of a CHIP-8 emulator written in Rust.
CHIP-8 is an 8-bit virtual machine with:

- 4 KiB of memory, with the hexadecimal font at address 0 and programs loaded at 0x200;
- sixteen 8-bit registers V0–VF plus a 16-bit index register `I`;
- a return stack;
- a 64×32 monochrome display;
- delay and sound timers.

The engine fetches a 16-bit big-endian instruction word and splits it into four nibbles. It dispatches on them to one of 34 instructions, and each instruction updates the machine. The remaining 0nnn words name machine-code routines, and for them the engine panics. Five "quirk" switches pick between the dialect variants of a few instructions:

- VF reset after the logic operations;
- `I` advancing after register dump/load;
- shifting Vx in place instead of Vy;
- the register `Bnnn` adds to its address;
- pacing sprite drawing to the 60 Hz display interrupt.

The model has two layers.

- **`EngineSpec` (engine_spec.dfy)** is the machine as a value.
  - `Machine` holds the registers, `I`, memory, stack, timers, pc, screen, handshake state and key-wait state.
  - `Instr` has one constructor per instruction.
  - `Decode`/`Encode` split and rebuild instruction words.
  - `Exec` and `HandleOpCode` give each instruction's effect as a function.
- **`Engine` (engine.dfy)** is the class `Chip8`. It has the fields of the Rust struct and a method per Rust handler, each updating those fields in place.
  - `State()` reads the fields back as a `Machine`.
  - Every handler's postcondition says that its new state equals the `EngineSpec` function applied to the old state.
  - The properties of the instruction set are proved once, about `EngineSpec`, in engine_props.dfy. Through those postconditions they hold for the class.

The other modules:

- `BitOps` (bit_ops.dfy) defines Rust's `<<`, `>>`, `&`, `|` and `^` on naturals bit by bit, plus the nibble-packing helpers of bit_ops.rs. It proves each helper's arithmetic meaning.
- `RegisterFile` (registers.dfy) is the register file as a class over a 16-element array.
- `QuirkPolicy` (quirks.dfy) holds the quirk switches and the vertical-blank handshake.
- `Version` (version.dfy) is the fixed-version hook `Chip8Ver`.

Integer widths follow the source:

- bytes are `0..255`, words `0..65535`, nibbles `0..15`;
- `as u8` truncation is `% 256`;
- subtraction through `i16` followed by `as u8` is the same `% 256`, which is Euclidean in Dafny and therefore agrees with two's-complement truncation for negative differences.

Where a Rust debug build would panic on an overflow or an out-of-bounds index, the method or function has a precondition that excludes it. The engine's deliberate panics are modelled as results:

- the `0nnn` machine-code routine;
- an unrecognised instruction word;
- `return` on an empty stack.

They are `Failure` values of the datatype `Fatal`, and the class's `HandleOpCode` returns them as `Some(fatal)`.

## Behaviour worth noting

The model follows the code in src/chip8.rs. Three of its choices differ from what CHIP-8 references commonly document, or are easy to misread:

- `8xy5` and `8xy7` set VF to 1 only when the minuend is strictly greater than the subtrahend (src/chip8.rs:262 and :278). For equal operands VF is 0, whereas a "VF = NOT borrow" reading would give 1. `EngineProperties.SubtractYFromXFlag` and `SubtractXFromYFlag` state the strict comparison.
- `8xyE` reads VF from bit 7 of the value after the shift (src/chip8.rs:287-288). That is bit 6 of the value before the shift. The commonly documented behaviour is the most significant bit before the shift, the bit shifted out. `EngineProperties.ShiftLeftFlag` states `(src / 64) % 2`.
- With the display-wait quirk on, a draw that must wait does not block the machine. It moves `pc` back by two, so the same `Dxyn` is fetched again on the next cycle (src/chip8.rs:174-177). `EngineProperties.LaterDrawInFrameWaits` states this.

`EngineSpec.Dispatch` matches on the leading nibble first and then on the remaining ones. It is meant to make the same choices as the single four-nibble `match` of src/chip8.rs:123-160. `EngineSpec.DecodeEncode` and `EngineSpec.EncodeDecode` prove that `Decode` is the exact inverse of the table `EngineSpec.Digits`. Every instruction's digits decode to it, and every other word fails. That this table is the one the Rust match arms spell rests on `Digits` being written arm by arm from src/chip8.rs:124-158. The proofs check the table against the dispatch, not against the Rust text.

## Model

| member | source | states |
|---|---|---|
| BitOps.Pow2 | src/bit_ops.rs:13-19 | `2^n`, the value of the mask `1 << n`; never zero |
| BitOps.Pow2Values | src/chip8.rs:117-122 | the powers behind the masks and shifts: 2^4 = 16, 2^7 = 128, 2^8 = 256, 2^12 = 4096, 2^15 = 0x8000, 2^16 = 0x10000 |
| BitOps.Lsh | src/registers.rs:36-38 | definition of `<<` before truncation; it has no contract of its own, and `BitOps.LshIsMul` states its value |
| BitOps.Rsh | src/registers.rs:40-42 | definition of `>>`; it has no contract of its own, and `BitOps.RshIsDiv` states its value |
| BitOps.Shl | src/registers.rs:36-38 | `<<` on a fixed width: the result always fits the width, the bits shifted out being lost |
| BitOps.Bit | src/bit_ops.rs:13-19 | definition of bit n of a value; it has no contract of its own, and the bit laws of `&`, `\|` and `^` are stated in its terms |
| BitOps.AsU8 | src/chip8.rs:255-256 | definition of `as u8`; it has no contract of its own, and `BitOps.AsU8Truncates` states its meaning |
| BitOps.AsU8Truncates | src/chip8.rs:255-256 | `as u8` gives a byte congruent to its input modulo 256, equal to it when it already fits |
| BitOps.BitAnd | src/registers.rs:28-30 | `a & b` is at most either operand |
| BitOps.BitOr | src/registers.rs:24-26 | `a \| b` lies between the larger operand and their sum |
| BitOps.BitXor | src/registers.rs:32-34 | `a ^ b` is at most the sum of the operands |
| BitOps.RshIsDiv | src/registers.rs:40-42 | `v >> n` is `v / 2^n` |
| BitOps.LshIsMul | src/registers.rs:36-38 | unbounded `v << n` is `v * 2^n` |
| BitOps.RshLsh | src/registers.rs:36-42 | shifting left then right by the same amount gives back the value |
| BitOps.BitAndAt | src/registers.rs:28-30 | bit n of `a & b` is set iff it is set in both operands |
| BitOps.BitOrAt | src/registers.rs:24-26 | bit n of `a \| b` is set iff it is set in either operand |
| BitOps.BitXorAt | src/registers.rs:32-34 | bit n of `a ^ b` is set iff exactly one operand has it |
| BitOps.OrBits | src/registers.rs:24-26 | the OR law holds at every bit position |
| BitOps.AndBits | src/registers.rs:28-30 | the AND law holds at every bit position |
| BitOps.XorBits | src/registers.rs:32-34 | the XOR law holds at every bit position |
| BitOps.SelfOperands | src/registers.rs:24-34 | `a \| a == a`, `a & a == a`, `a ^ a == 0` |
| BitOps.OrBounded | src/registers.rs:24-26 | OR of two k-bit values is a k-bit value (a `u8` result cannot overflow) |
| BitOps.XorBounded | src/registers.rs:32-34 | XOR of two k-bit values is a k-bit value |
| BitOps.AndLowMask | src/chip8.rs:180-181 | masking with `2^k - 1` (the `& 63`, `& 31` of a draw) is `% 2^k` |
| BitOps.AndShifted | src/chip8.rs:117-122 | masking with a shifted field and shifting back extracts that field |
| BitOps.OrDisjoint | src/bit_ops.rs:2-10 | OR of a shifted value with a smaller one is their sum |
| BitOps.SingleBitMask | src/bit_ops.rs:13-19 | `v & (1 << n) != 0` iff bit n of v is set |
| BitOps.ToU8Value | src/bit_ops.rs:2 | `(b1 << 4) \| b2` fits a byte, and for two nibbles it is `16*b1 + b2` |
| BitOps.ToU8 | src/bit_ops.rs:2 | for nibbles, `to_u8` is `16*b1 + b2` and splits back into b1 and b2 |
| BitOps.ToU16Value | src/bit_ops.rs:4-6 | `(b1 << 8) \| b2` is `256*b1 + b2` |
| BitOps.ToU16 | src/bit_ops.rs:4-6 | `to_u16` is the big-endian word of its two bytes and splits back into them |
| BitOps.ToU16FromThreeValue | src/bit_ops.rs:8-10 | the three-nibble OR fits 16 bits and is `256*b1 + 16*b2 + b3` for nibbles |
| BitOps.NibblesValue | src/bit_ops.rs:8-10 | the three-nibble OR equals the 12-bit address the nibbles spell |
| BitOps.ToU16FromThree | src/bit_ops.rs:8-10 | for nibbles, `to_u16_from_three` is the 12-bit address `256*b1 + 16*b2 + b3`, below 4096 |
| BitOps.GetBitAtU8 | src/bit_ops.rs:13-15 | `get_bit_at` on a byte is true iff bit n is 1 |
| BitOps.GetBitAtU16 | src/bit_ops.rs:17-19 | `get_bit_at` on a word is true iff bit n is 1 |
| BitOps.SingleBitValue | src/bit_ops.rs:13-19 | the truncated mask test agrees with `(v / 2^n) % 2 == 1` below the width |
| BitOps.Or8 | src/registers.rs:24-26 | the byte OR has exactly the bits of either operand |
| BitOps.And8 | src/registers.rs:28-30 | the byte AND has exactly the bits common to both operands |
| BitOps.Xor8 | src/registers.rs:32-34 | the byte XOR has exactly the bits where the operands differ |
| RegisterFile.Registers.Default | src/registers.rs:9-14 | a fresh file has all sixteen registers and `I` at zero |
| RegisterFile.Registers.Get | src/registers.rs:16-18 | reads register x |
| RegisterFile.Registers.Set | src/registers.rs:20-22 | register x takes the value, every other register and `I` are unchanged |
| RegisterFile.Registers.Or | src/registers.rs:24-26 | Vx becomes `Vx \| Vy`, nothing else changes |
| RegisterFile.Registers.And | src/registers.rs:28-30 | Vx becomes `Vx & Vy`, nothing else changes |
| RegisterFile.Registers.Xor | src/registers.rs:32-34 | Vx becomes `Vx ^ Vy`, nothing else changes |
| RegisterFile.Registers.ShiftLeft | src/registers.rs:36-38 | Vx becomes its 8-bit-truncated left shift; by one it is `2*Vx % 256` |
| RegisterFile.Registers.ShiftRight | src/registers.rs:40-42 | Vx becomes its right shift; by one it is `Vx / 2` |
| RegisterFile.Registers.SetVf | src/registers.rs:44-46 | only VF changes, to the given value |
| RegisterFile.ShlIsByte | src/registers.rs:36-38 | the shifted byte stays a byte and doubling truncates mod 256 |
| RegisterFile.RshIsByte | src/registers.rs:40-42 | the right shift never grows the byte and halves it when shifting by one |
| RegisterFile.SameRegisterOperands | src/registers.rs:24-34 | `8xy1/2/3` with x == y leave Vx unchanged for OR/AND and zero it for XOR |
| QuirkPolicy.Quirks.VfReset | src/quirks.rs:23-25 | VF is cleared exactly when the vf-reset quirk is on |
| QuirkPolicy.Quirks.Memory | src/quirks.rs:27-29 | `I` advances by x + 1 exactly when the memory quirk is on |
| QuirkPolicy.Quirks.Shifting | src/quirks.rs:31-33 | with the shifting quirk off Vx first takes Vy, otherwise nothing changes |
| QuirkPolicy.AfterVfReset | src/quirks.rs:23-25 | only VF can change: it is 0 with the vf-reset quirk on, and with the quirk off the registers are unchanged |
| QuirkPolicy.AfterMemory | src/quirks.rs:27-29 | `I` never moves back; it moves exactly when the memory quirk is on, and then by x + 1 |
| QuirkPolicy.AfterShifting | src/quirks.rs:31-33 | only Vx can change; it keeps Vx with the shifting quirk on and takes Vy with it off |
| QuirkPolicy.Quirks.Jumping | src/quirks.rs:35-37 | definition (V0, or Vn with the jumping quirk); it has no contract of its own, and `EngineProperties.JumpWithOffset` states its effect on Bnnn |
| QuirkPolicy.Quirks.DisplayWait | src/quirks.rs:39-55 | with the quirk off it never waits and keeps the handshake; with it on it waits exactly when the handshake is not `Free`, and never leaves it `Free` |
| QuirkPolicy.AtMostOneDrawPerFrame | src/quirks.rs:39-55 | with display wait on, at most one of any run of draws between interrupts proceeds, it is the first call from `Free`, and the handshake ends in `WaitForInterrupt` |
| QuirkPolicy.NoDisplayWaitNeverWaits | src/quirks.rs:39-42 | with display wait off no draw ever waits and the handshake is untouched |
| Version.Chip8Ver.HandleVf | src/version.rs:12 | VF becomes 0 and nothing else changes, the same as the vf-reset quirk on |
| Version.Chip8Ver.HandleI | src/version.rs:13 | `I` advances by x + 1, the same as the memory quirk on |
| Version.HandleVfIdempotent | src/version.rs:12 | clearing VF twice is clearing it once |
| EngineSpec.Nibbles | src/chip8.rs:117-122 | the four nibbles are the hex digits of the word, most significant first, and recombine to it |
| EngineSpec.NibbleAt | src/chip8.rs:117-122 | masking a nibble field and shifting it down gives that hex digit |
| EngineSpec.NibblesValue | src/chip8.rs:117-122 | the masked, shifted, `as u8` nibbles are the four hex digits of the word |
| EngineSpec.NibblesOfWord4 | src/chip8.rs:117-122 | splitting the word built from four nibbles gives those nibbles back |
| EngineSpec.Decode | src/chip8.rs:116-160 | a word that does not decode fails as a machine-code routine below 0x1000 and as an unrecognised command from 0x1000 on |
| EngineSpec.Dispatch | src/chip8.rs:123-160 | failures by leading digit: 0 gives a machine-code routine, any other an unrecognised command |
| EngineSpec.DispatchSystem | src/chip8.rs:124-126 | succeeds exactly on 00E0 and 00EE; every other 0nnn is a machine-code routine |
| EngineSpec.DispatchArithmetic | src/chip8.rs:134-142 | 8xyN succeeds exactly for N in 0–7 and E; every other is unrecognised |
| EngineSpec.DispatchKeys | src/chip8.rs:148-149 | ExNN succeeds exactly for NN = 9E and A1; every other is unrecognised |
| EngineSpec.DispatchMisc | src/chip8.rs:150-158 | FxNN succeeds exactly for the nine NN of the listed arms; every other is unrecognised |
| EngineSpec.DispatchOthers | src/chip8.rs:127-147 | leading digits 1–7 and 9–D succeed, except that 5xyN and 9xyN need N = 0 |
| EngineSpec.Digits | src/chip8.rs:124-158 | the table of each instruction's four digits, written arm by arm from the match; it has no contract of its own, and `EngineSpec.DispatchDigits` ties it to the dispatch |
| EngineSpec.DispatchDigits | src/chip8.rs:124-158 | dispatching an instruction's digits gives that instruction back |
| EngineSpec.Encode | src/chip8.rs:117-122 | the four nibbles of an instruction's word are its digits |
| EngineSpec.AddressOperand | src/chip8.rs:117-122 | the address `to_u16_from_three` rebuilds from the last three nibbles is `hex & 0x0FFF`, i.e. `hex % 4096` |
| EngineSpec.DecodeEncode | src/chip8.rs:123-158 | every instruction's word decodes to that instruction |
| EngineSpec.EncodeDecode | src/chip8.rs:123-160 | every word that decodes is the encoding of what it decodes to |
| EngineSpec.DispatchKeepsDigits | src/chip8.rs:123-158 | a dispatched instruction carries exactly the nibbles it was matched from |
| EngineSpec.DecodeFailsExactlyOffTheInstructionSet | src/chip8.rs:126-160 | decoding fails iff no instruction encodes to the word |
| EngineSpec.MachineCodeRoutines | src/chip8.rs:124-126 | the `0nnn` panic is raised for exactly the words below 0x1000 other than 00E0 and 00EE |
| EngineSpec.ReturnOpcode | src/chip8.rs:125 | only 0x00EE decodes to a return |
| EngineSpec.Load | src/chip8.rs:100-106 | the data is copied at its start address and every other byte is kept |
| EngineSpec.BlankScreen | src/chip8.rs:167-171 | a 32×64 screen with every pixel off |
| EngineSpec.Init | src/chip8.rs:72-92 | font at 0, ROM at 0x200, zeros elsewhere; pc 0x200, empty stack, zero registers, `I` and timers, blank screen, handshake `Free`, not blocked, key-wait register 0 |
| EngineSpec.Fetch | src/chip8.rs:94-98 | the word read is `memory[pc]` as high byte and `memory[pc+1]` as low byte, and only pc moves, by 2 |
| EngineSpec.BcdDigits | src/chip8.rs:372-385 | the hundreds, tens and units digits of a byte, which recombine to it |
| EngineSpec.StoreBcd | src/chip8.rs:372-385 | only memory changes, and only at I, I+1 and I+2 |
| EngineSpec.DumpRegisters | src/chip8.rs:387-393 | only memory and `I` change |
| EngineSpec.LoadRegisters | src/chip8.rs:395-401 | only the registers and `I` change |
| EngineSpec.AddRegs | src/chip8.rs:253-258 | only Vx and VF change (their values: `EngineProperties.AddYToXFlag`) |
| EngineSpec.SubRegs | src/chip8.rs:260-266 | only Vx and VF change (their values: `EngineProperties.SubtractYFromXFlag`) |
| EngineSpec.SubnRegs | src/chip8.rs:276-282 | only Vx and VF change (their values: `EngineProperties.SubtractXFromYFlag`) |
| EngineSpec.ShrRegs | src/chip8.rs:268-274 | only Vx and VF change (their values: `EngineProperties.ShiftRightFlag`) |
| EngineSpec.ShlRegs | src/chip8.rs:284-290 | only Vx and VF change (their values: `EngineProperties.ShiftLeftFlag`) |
| EngineSpec.SetKey | src/chip8.rs:422-425 | the key lands in the register Fx0A named, the other registers keep their values, the machine is unblocked, and nothing else changes |
| EngineSpec.SaturatingDec | src/chip8.rs:427-433 | a timer drops by exactly one, except at zero, where it stays |
| EngineSpec.DecrementTimers | src/chip8.rs:435-438 | only the two timers change, each dropping by one unless it is already zero |
| EngineSpec.Sprite | src/chip8.rs:184-187 | the n sprite rows are the bytes at I..I+n-1 |
| EngineSpec.Hit | src/chip8.rs:186-191 | definition: the sprite has a lit bit over the pixel; it has no contract of its own and is used in `EngineSpec.Blit`'s |
| EngineSpec.Collision | src/chip8.rs:192-194 | definition: a lit pixel lies under a lit sprite bit; it has no contract of its own, and `EngineProperties.CollisionMeansErased` characterises it |
| EngineSpec.Touches | src/chip8.rs:191-197 | definition: some lit sprite bit lands on the screen, which sets the changed flag; `EngineProperties.RedrawOnBlankCollides` uses it |
| EngineSpec.SkipTaken | src/chip8.rs:292-312 | definition of when each skip skips; it has no contract of its own, and `EngineProperties.SkipSkipsNextInstruction`, `KeySkipsAreComplementary` and `NoKeyHeld` state its consequences |
| EngineSpec.CanExecute | src/chip8.rs:173-420 | definition of the inputs on which a handler does not hit a Rust overflow or index panic; it has no contract of its own, and `EngineSpec.CanExecuteIgnoresKey` states that only the key skips depend on the key |
| EngineSpec.Origin | src/chip8.rs:180-181 | the sprite origin is Vx wrapped to 64 columns and Vy wrapped to 32 rows |
| EngineSpec.OriginValue | src/chip8.rs:180-181 | `Vx & 63` and `Vy & 31` are `Vx % 64` and `Vy % 32` |
| EngineSpec.Blit | src/chip8.rs:184-200 | every pixel is XORed with the sprite bit over it, with clipping at the right and bottom edges |
| EngineSpec.DrawSprite | src/chip8.rs:179-203 | the screen becomes the sprite XORed onto it at the wrapped origin, VF becomes 1 exactly on a collision, the changed flag is set exactly when a lit sprite bit lands on the screen (equivalently, when the screen changes) or it was already set, V0–VE are kept, and only the screen, the changed flag and the registers change |
| EngineSpec.TouchesIffScreenChanges | src/chip8.rs:191-197 | a sprite changes the screen exactly when one of its lit bits lands on it, so `vram_changed` marks a real change |
| EngineSpec.Exec | src/chip8.rs:123-160 | executing an instruction fails exactly on a return with an empty stack and otherwise yields a valid machine |
| EngineSpec.ExecControl | src/chip8.rs:124-149 | the flow instructions fail only on a return with an empty stack and never touch registers, `I` or memory |
| EngineSpec.ExecArithmetic | src/chip8.rs:211-290 | the register instructions change only the register file |
| EngineSpec.ExecOther | src/chip8.rs:173-420 | the remaining instructions never touch the stack |
| EngineSpec.HandleOpCode | src/chip8.rs:116-161 | handling a word fails exactly when it does not decode or is 00EE with an empty stack |
| EngineSpec.ExecArithmeticGroup | src/chip8.rs:132-158 | the register instructions always run, and their effect is independent of the key |
| EngineSpec.CanExecuteIgnoresKey | src/chip8.rs:123-158 | only the key skips depend on the held key |
| EngineProperties.AddYToXFlag | src/chip8.rs:253-258 | 8xy4: Vx becomes the sum mod 256, VF is 1 exactly on carry, other registers kept |
| EngineProperties.SubtractYFromXFlag | src/chip8.rs:260-266 | 8xy5: Vx becomes `Vx - Vy` mod 256, VF is 1 exactly when Vx > Vy, other registers kept |
| EngineProperties.SubtractXFromYFlag | src/chip8.rs:276-282 | 8xy7: Vx becomes `Vy - Vx` mod 256, VF is 1 exactly when Vy > Vx, other registers kept |
| EngineProperties.ShiftRightFlag | src/chip8.rs:268-274 | 8xy6: Vx becomes the source halved and VF its low bit, the source chosen by the shifting quirk |
| EngineProperties.ShiftLeftFlag | src/chip8.rs:284-290 | 8xyE: Vx becomes the source doubled mod 256 and VF bit 6 of the source |
| EngineProperties.ShlFlagValue | src/chip8.rs:286-288 | bit 7 of the shifted byte is bit 6 of the byte before the shift |
| EngineProperties.LogicOpsResetFlag | src/chip8.rs:235-251 | with vf-reset on, 8xy1/2/3 give Vx the bitwise OR/AND/XOR, clear VF, and change nothing else |
| EngineProperties.LogicOpsKeepFlag | src/chip8.rs:235-251 | with vf-reset off, 8xy1/2/3 give Vx the bitwise OR/AND/XOR and keep every other register, VF included |
| EngineProperties.AddValueKeepsFlag | src/chip8.rs:217-222 | 7xkk adds kk mod 256 to Vx and leaves VF and every other register alone |
| EngineProperties.RandomMaskedByConstant | src/chip8.rs:403-408 | Cxkk sets only bits of kk in Vx, so Vx ≤ kk, and changes nothing else |
| EngineProperties.CallThenReturn | src/chip8.rs:340-351 | 2nnn pushes pc and jumps to nnn, and a return then restores the machine exactly |
| EngineProperties.JumpWithOffset | src/chip8.rs:314-318 | Bnnn sets pc to nnn plus V0 (Vn1 with the jumping quirk) and changes nothing else |
| EngineProperties.SkipSkipsNextInstruction | src/chip8.rs:292-312 | a fetched skip instruction advances pc by 4 when taken and 2 otherwise, and changes nothing else |
| EngineProperties.KeySkipsAreComplementary | src/chip8.rs:353-370 | Ex9E and ExA1 skip in exactly the opposite cases |
| EngineProperties.NoKeyHeld | src/chip8.rs:353-370 | with no key held, Ex9E never skips and ExA1 always does |
| EngineProperties.BcdStoresDigits | src/chip8.rs:372-385 | Fx33 stores the three decimal digits of Vx at I..I+2 and nothing else changes |
| EngineProperties.DumpRegistersEffect | src/chip8.rs:387-393 | Fx55 stores V0..Vx at I..I+x, keeps other memory, and moves `I` per the memory quirk |
| EngineProperties.LoadRegistersEffect | src/chip8.rs:395-401 | Fx65 loads V0..Vx from I..I+x, keeps the other registers, and moves `I` per the memory quirk |
| EngineProperties.DumpThenLoadRestores | src/chip8.rs:387-401 | loading back from where registers were dumped restores all sixteen |
| EngineProperties.SpriteAddressPointsAtGlyph | src/chip8.rs:416-420 | Fx29 points `I` at the five font bytes of digit Vx |
| EngineProperties.AddVxToIEffect | src/chip8.rs:335-338 | Fx1E adds Vx to `I` and changes nothing else |
| EngineProperties.BlitInvolution | src/chip8.rs:184-200 | drawing the same sprite twice at the same place restores the screen |
| EngineProperties.CollisionMeansErased | src/chip8.rs:192-194 | the collision flag is set iff some pixel that was on is now off |
| EngineProperties.DrawClipsWithoutWrapping | src/chip8.rs:188-191 | pixels left of or above the sprite origin never change |
| EngineProperties.RedrawOnBlankCollides | src/chip8.rs:184-200 | a draw on a blank screen never collides, and drawing it again collides iff it lit a pixel |
| EngineProperties.FirstDrawOfFrameDraws | src/chip8.rs:173-203 | the first draw of a frame draws and moves the handshake to `WaitForDraw` |
| EngineProperties.LaterDrawInFrameWaits | src/chip8.rs:174-177 | a later draw in the same frame leaves the screen alone and rewinds pc to re-fetch itself |
| EngineProperties.GetKeyThenSetKey | src/chip8.rs:410-425 | Fx0A blocks the machine, and the key it receives lands in Vx and unblocks it |
| EngineProperties.TimersCountDownToZero | src/chip8.rs:427-438 | after n ticks each timer is n lower, floored at zero, and nothing else changes |
| Engine.ScreenOf | src/chip8.rs:108-114 | the screen value holds exactly the pixels of the video memory array |
| Engine.PaintedAll | src/chip8.rs:184-200 | once every row is painted the video memory equals the blitted screen |
| Engine.AllRowsDone | src/chip8.rs:184-200 | after the last row, the pixels drawn, the erase flag and the changed flag are those of the whole sprite |
| Engine.Chip8.constructor | src/chip8.rs:72-92 | the new machine is `Init(rom)` with the default quirks |
| Engine.Chip8.LoadToMemory | src/chip8.rs:100-106 | memory becomes `Load(memory, data, start)` |
| Engine.Chip8.Fetch | src/chip8.rs:94-98 | returns the word at pc and moves pc as `EngineSpec.Fetch` does |
| Engine.Chip8.HandleOpCode | src/chip8.rs:116-161 | the new state and the fatal outcome are those of `EngineSpec.HandleOpCode` |
| Engine.Chip8.Execute | src/chip8.rs:123-160 | the new state and the fatal outcome are those of `EngineSpec.Exec` |
| Engine.Chip8.ExecuteControl | src/chip8.rs:124-149 | agrees with `EngineSpec.ExecControl` |
| Engine.Chip8.ExecuteSkip | src/chip8.rs:129-149 | agrees with `EngineSpec.ExecControl` on the six skips |
| Engine.Chip8.ExecuteArithmetic | src/chip8.rs:132-146 | agrees with `EngineSpec.ExecArithmetic` |
| Engine.Chip8.ExecuteOther | src/chip8.rs:144-158 | agrees with `EngineSpec.ExecOther` |
| Engine.Chip8.GetPixel | src/chip8.rs:112-114 | reads the pixel at row y, column x |
| Engine.Chip8.SetPixel | src/chip8.rs:108-110 | only the pixel at row y, column x changes, to the value given |
| Engine.Chip8.Skip | src/chip8.rs:163-165 | pc advances by 2 and nothing else changes |
| Engine.Chip8.ClearDisplay | src/chip8.rs:167-171 | agrees with `ExecControl` on 00E0: blank screen, changed flag set |
| Engine.Chip8.ReturnSub | src/chip8.rs:347-351 | agrees with `ExecControl` on 00EE, returning the empty-stack fatal |
| Engine.Chip8.Jump | src/chip8.rs:224-228 | agrees with `ExecControl` on 1nnn |
| Engine.Chip8.Call | src/chip8.rs:340-345 | agrees with `ExecControl` on 2nnn |
| Engine.Chip8.SkipIfEqual | src/chip8.rs:292-296 | agrees with `ExecControl` on 3xkk |
| Engine.Chip8.SkipIfNotEqual | src/chip8.rs:298-302 | agrees with `ExecControl` on 4xkk |
| Engine.Chip8.SkipIfRegistersEqual | src/chip8.rs:304-307 | agrees with `ExecControl` on 5xy0 |
| Engine.Chip8.SkipIfRegistersNotEqual | src/chip8.rs:309-312 | agrees with `ExecControl` on 9xy0 |
| Engine.Chip8.SkipIfPressed | src/chip8.rs:353-360 | agrees with `ExecControl` on Ex9E for the held key |
| Engine.Chip8.SkipIfNotPressed | src/chip8.rs:362-370 | agrees with `ExecControl` on ExA1 for the held key |
| Engine.Chip8.SetRegisterTo | src/chip8.rs:211-215 | agrees with `ExecArithmetic` on 6xkk |
| Engine.Chip8.AddValueToRegister | src/chip8.rs:217-222 | agrees with `ExecArithmetic` on 7xkk |
| Engine.Chip8.SetXToY | src/chip8.rs:230-233 | agrees with `ExecArithmetic` on 8xy0 |
| Engine.Chip8.SetXToYOr | src/chip8.rs:235-239 | agrees with `ExecArithmetic` on 8xy1 |
| Engine.Chip8.SetXToYAnd | src/chip8.rs:241-245 | agrees with `ExecArithmetic` on 8xy2 |
| Engine.Chip8.SetXToYXor | src/chip8.rs:247-251 | agrees with `ExecArithmetic` on 8xy3 |
| Engine.Chip8.AddYToX | src/chip8.rs:253-258 | agrees with `ExecArithmetic` on 8xy4 |
| Engine.Chip8.SubtractYFromX | src/chip8.rs:260-266 | agrees with `ExecArithmetic` on 8xy5 |
| Engine.Chip8.ShiftRight | src/chip8.rs:268-274 | agrees with `ExecArithmetic` on 8xy6 |
| Engine.Chip8.SubtractXFromY | src/chip8.rs:276-282 | agrees with `ExecArithmetic` on 8xy7 |
| Engine.Chip8.ShiftLeft | src/chip8.rs:284-290 | agrees with `ExecArithmetic` on 8xyE |
| Engine.Chip8.SetI | src/chip8.rs:205-209 | agrees with `ExecOther` on Annn |
| Engine.Chip8.JumpPlusV0 | src/chip8.rs:314-318 | agrees with `ExecControl` on Bnnn |
| Engine.Chip8.SetVxToRandAndNn | src/chip8.rs:403-408 | agrees with `ExecArithmetic` on Cxkk for the random byte given |
| Engine.Chip8.Draw | src/chip8.rs:173-203 | agrees with `ExecOther` on Dxyn, including the display-wait rewind |
| Engine.Chip8.DrawRows | src/chip8.rs:179-202 | the row loop leaves the machine as `EngineSpec.DrawSprite` describes |
| Engine.Chip8.DrawRow | src/chip8.rs:185-199 | one row extends the painted area, collision flag and changed flag by that row |
| Engine.Chip8.DrawPixel | src/chip8.rs:186-198 | one pixel step extends the painted area, collision flag and changed flag by that pixel |
| Engine.Chip8.SetVxToDelay | src/chip8.rs:320-323 | agrees with `ExecOther` on Fx07 |
| Engine.Chip8.GetKey | src/chip8.rs:410-414 | agrees with `ExecOther` on Fx0A |
| Engine.Chip8.SetDelayTimer | src/chip8.rs:325-328 | agrees with `ExecOther` on Fx15 |
| Engine.Chip8.SetSoundTimer | src/chip8.rs:330-333 | agrees with `ExecOther` on Fx18 |
| Engine.Chip8.AddVxToI | src/chip8.rs:335-338 | agrees with `ExecOther` on Fx1E |
| Engine.Chip8.SetIToSprite | src/chip8.rs:416-420 | agrees with `ExecOther` on Fx29 |
| Engine.Chip8.BinaryCodedDecimal | src/chip8.rs:372-385 | agrees with `ExecOther` on Fx33 |
| Engine.Chip8.RegDump | src/chip8.rs:387-393 | agrees with `ExecOther` on Fx55 |
| Engine.Chip8.RegLoad | src/chip8.rs:395-401 | agrees with `ExecOther` on Fx65 |
| Engine.Chip8.SetKey | src/chip8.rs:422-425 | the pressed key lands in the register Fx0A named and the machine unblocks |
| Engine.Chip8.DecrementDelayTimer | src/chip8.rs:427-429 | the delay timer drops by one, saturating at zero |
| Engine.Chip8.DecrementSoundTimer | src/chip8.rs:431-433 | the sound timer drops by one, saturating at zero |
| Engine.Chip8.DecrementTimers | src/chip8.rs:435-438 | both timers drop by one, saturating at zero, and nothing else changes |

## Left out

- `print_debug_message` (src/chip8.rs:440-442) and the `print_debug_messages` switch of `Config` (src/chip8.rs:57-68) are left out because they only write to the console. For the same reason the handlers do not take the `hex` argument, which the source passes only to that message.
- The runner, the SDL driver, graphics, input handling, the command line and `main` are not part of this model. These include the 60 Hz loop that resets the vertical-blank handshake to `Free`, and the loop that stops fetching while `blocked` is set.
- Engine.Chip8.SetVxToRandAndNn: the `rand` crate's generator is replaced by a byte parameter `rnd`. The properties hold for every value it can take.
- The `Version` trait (src/version.rs:4-7) is not modelled as a trait. Only its one implementation, `Chip8Ver`, is.
- QuirkPolicy.Quirks.Jumping: the Rust method borrows the register file mutably but only reads it. The model reads the register values as a sequence, so it carries no claim about the register file being left unchanged. That fact is implied by the type.
- QuirkPolicy.Quirks.DisplayWait: the Rust method updates the handshake through a `&mut` reference. The model returns the new state beside the answer, and callers store it.
- The stack is a Rust `VecDeque` used from the front only. It is modelled as a sequence whose first element is the top of the stack.
- Rust debug-build overflow panics are modelled as preconditions rather than as failures. They occur in `pc + 2`, `pc - 2`, `I + Vx`, `Vx * 5`, `I + x + 1` and out-of-range memory indices. A release build would wrap around instead; wrap-around is not modelled.
- The quirk set is fixed at construction, as `Config::default` fixes it (src/chip8.rs:62-68). Other dialects are reached through `EngineSpec`'s explicit `Quirks` parameter.
