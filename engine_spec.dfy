/** The CHIP-8 engine of chip8.rs as a value: the machine state, the
    decoding of an opcode word into an instruction, and the effect of each
    instruction on the state. The class `Engine.Chip8` is proved to follow
    these functions step by step. */
module EngineSpec {
  import opened Wrappers
  import opened BitOps
  import opened RegisterFile
  import opened QuirkPolicy

  /** The built-in hexadecimal font: sixteen 5-byte sprites for 0..F. */
  const FONT: seq<Byte> := [
    0xF0, 0x90, 0x90, 0x90, 0xF0, // 0
    0x20, 0x60, 0x20, 0x20, 0x70, // 1
    0xF0, 0x10, 0xF0, 0x80, 0xF0, // 2
    0xF0, 0x10, 0xF0, 0x10, 0xF0, // 3
    0x90, 0x90, 0xF0, 0x10, 0x10, // 4
    0xF0, 0x80, 0xF0, 0x10, 0xF0, // 5
    0xF0, 0x80, 0xF0, 0x90, 0xF0, // 6
    0xF0, 0x10, 0x20, 0x40, 0x40, // 7
    0xF0, 0x90, 0xF0, 0x90, 0xF0, // 8
    0xF0, 0x90, 0xF0, 0x10, 0xF0, // 9
    0xF0, 0x90, 0xF0, 0x90, 0x90, // A
    0xE0, 0x90, 0xE0, 0x90, 0xE0, // B
    0xF0, 0x80, 0x80, 0x80, 0xF0, // C
    0xE0, 0x90, 0x90, 0x90, 0xE0, // D
    0xF0, 0x80, 0xF0, 0x80, 0xF0, // E
    0xF0, 0x80, 0xF0, 0x80, 0x80  // F
  ]

  const FONT_POINTER: Word := 0x000
  const PROGRAM_POINTER: Word := 0x200
  const MEMORY_SIZE: nat := 4096
  const CH8_WIDTH: nat := 64
  const CH8_HEIGHT: nat := 32

  /** The display, row by row: `vram[y][x]` is the pixel in row `y`, column `x`. */
  type Screen = seq<seq<bool>>

  predicate ScreenShaped(s: Screen)
  {
    |s| == CH8_HEIGHT && forall y :: 0 <= y < |s| ==> |s[y]| == CH8_WIDTH
  }

  /** The ways `handle_op_code` can stop the program with a panic that is
      part of its behaviour rather than an arithmetic or index fault. */
  datatype Fatal =
    | MachineCodeRoutine(word: Word)   // 0nnn other than 00E0 and 00EE
    | UnrecognizedCommand(word: Word)  // a word no arm of the dispatch matches
    | EmptyStack                       // 00EE with no return address saved

  /** The machine state: the fields of `Chip8`, with the register file split
      into `v` and `i`, and the return stack with its front at index 0. */
  datatype Machine = Machine(
    v: seq<Byte>,
    i: Word,
    memory: seq<Byte>,
    stack: seq<Word>,
    delayTimer: Byte,
    soundTimer: Byte,
    pc: Word,
    vram: Screen,
    vramChanged: bool,
    blocked: bool,
    blockedKeyVx: Byte,
    vblank: VBlank)
  {
    predicate Valid()
    {
      |v| == 16 && |memory| == MEMORY_SIZE && ScreenShaped(vram) && blockedKeyVx < 16
    }
  }

  /** One decoded opcode, carrying the nibbles the dispatch hands to its
      handler: `x`, `y` register numbers, `n1 n2 n3` the digits of an
      address or constant, `n` a sprite height. */
  datatype Instr =
    | ClearDisplay                                  // 00E0
    | ReturnSub                                     // 00EE
    | Jump(n1: Nibble, n2: Nibble, n3: Nibble)      // 1nnn
    | Call(n1: Nibble, n2: Nibble, n3: Nibble)      // 2nnn
    | SkipIfEqual(x: Nibble, n1: Nibble, n2: Nibble)     // 3xkk
    | SkipIfNotEqual(x: Nibble, n1: Nibble, n2: Nibble)  // 4xkk
    | SkipIfRegistersEqual(x: Nibble, y: Nibble)    // 5xy0
    | SetRegisterTo(x: Nibble, n1: Nibble, n2: Nibble)   // 6xkk
    | AddValueToRegister(x: Nibble, n1: Nibble, n2: Nibble) // 7xkk
    | SetXToY(x: Nibble, y: Nibble)                 // 8xy0
    | SetXToYOr(x: Nibble, y: Nibble)               // 8xy1
    | SetXToYAnd(x: Nibble, y: Nibble)              // 8xy2
    | SetXToYXor(x: Nibble, y: Nibble)              // 8xy3
    | AddYToX(x: Nibble, y: Nibble)                 // 8xy4
    | SubtractYFromX(x: Nibble, y: Nibble)          // 8xy5
    | ShiftRight(x: Nibble, y: Nibble)              // 8xy6
    | SubtractXFromY(x: Nibble, y: Nibble)          // 8xy7
    | ShiftLeft(x: Nibble, y: Nibble)               // 8xyE
    | SkipIfRegistersNotEqual(x: Nibble, y: Nibble) // 9xy0
    | SetI(n1: Nibble, n2: Nibble, n3: Nibble)      // Annn
    | JumpPlusV0(n1: Nibble, n2: Nibble, n3: Nibble)     // Bnnn
    | SetVxToRandAndNn(x: Nibble, n1: Nibble, n2: Nibble) // Cxkk
    | Draw(x: Nibble, y: Nibble, n: Nibble)         // Dxyn
    | SkipIfPressed(x: Nibble)                      // Ex9E
    | SkipIfNotPressed(x: Nibble)                   // ExA1
    | SetVxToDelay(x: Nibble)                       // Fx07
    | GetKey(x: Nibble)                             // Fx0A
    | SetDelayTimer(x: Nibble)                      // Fx15
    | SetSoundTimer(x: Nibble)                      // Fx18
    | AddVxToI(x: Nibble)                           // Fx1E
    | SetIToSprite(x: Nibble)                       // Fx29
    | BinaryCodedDecimal(x: Nibble)                 // Fx33
    | RegDump(x: Nibble)                            // Fx55
    | RegLoad(x: Nibble)                            // Fx65

  // ---------------------------------------------------------------------
  // Decoding

  /** The four hexadecimal digits of an opcode word, most significant first,
      cut out with the masks and shifts `handle_op_code` uses. */
  function Nibbles(hex: Word): (r: (Nibble, Nibble, Nibble, Nibble))
    ensures r.0 == hex / 4096 && r.1 == (hex / 256) % 16
    ensures r.2 == (hex / 16) % 16 && r.3 == hex % 16
    ensures hex == Word4(r.0, r.1, r.2, r.3)
  {
    NibblesValue(hex);
    (AsU8(Rsh(BitAnd(hex, 0xF000), 12)),
     AsU8(Rsh(BitAnd(hex, 0x0F00), 8)),
     AsU8(Rsh(BitAnd(hex, 0x00F0), 4)),
     AsU8(BitAnd(hex, 0x000F)))
  }

  /** The word whose hexadecimal digits are `a b c d`. */
  function Word4(a: Nibble, b: Nibble, c: Nibble, d: Nibble): Word
  {
    4096 * a + 256 * b + 16 * c + d
  }

  lemma {:induction false} MaskedNibble(hex: nat, k: nat)
    ensures Rsh(BitAnd(hex, Lsh(15, k)), k) == Rsh(hex, k) % 16
  {
    AndShifted(hex, 15, k);
    RshLsh(BitAnd(Rsh(hex, k), 15), k);
    Pow2Values();
    AndLowMask(Rsh(hex, k), 4);
  }

  lemma {:induction false} NibbleAt(hex: nat, k: nat)
    ensures Rsh(BitAnd(hex, Lsh(15, k)), k) == (hex / Pow2(k)) % 16
  {
    MaskedNibble(hex, k);
    RshIsDiv(hex, k);
  }

  lemma MaskConstants()
    ensures Lsh(15, 12) == 0xF000 && Lsh(15, 8) == 0x0F00 && Lsh(15, 4) == 0x00F0
  {
    Pow2Values();
    LshIsMul(15, 12);
    ShiftByNibbles(15);
  }

  /** Positional notation in base 16 for a 16-bit word. */
  lemma DigitsRecompose(hex: Word)
    ensures hex / 4096 < 16
    ensures hex == 4096 * (hex / 4096) + 256 * ((hex / 256) % 16) + 16 * ((hex / 16) % 16) + hex % 16
  {
    var d0, d1, d2 := hex % 16, (hex / 16) % 16, (hex / 256) % 16;
    assert hex / 256 == (hex / 16) / 16;
    assert hex / 4096 == (hex / 256) / 16;
    assert hex == 16 * (hex / 16) + d0;
    assert hex / 16 == 16 * (hex / 256) + d1;
    assert hex / 256 == 16 * (hex / 4096) + d2;
  }

  lemma NibblesValue(hex: Word)
    ensures AsU8(Rsh(BitAnd(hex, 0xF000), 12)) == hex / 4096
    ensures AsU8(Rsh(BitAnd(hex, 0x0F00), 8)) == (hex / 256) % 16
    ensures AsU8(Rsh(BitAnd(hex, 0x00F0), 4)) == (hex / 16) % 16
    ensures AsU8(BitAnd(hex, 0x000F)) == hex % 16
    ensures hex == 4096 * (hex / 4096) + 256 * ((hex / 256) % 16) + 16 * ((hex / 16) % 16) + hex % 16
  {
    DigitsRecompose(hex);
    NibbleOneValue(hex);
    NibbleTwoValue(hex);
    NibbleThreeValue(hex);
    NibbleFourValue(hex);
    AsU8OfByte(hex / 4096);
    AsU8OfByte((hex / 256) % 16);
    AsU8OfByte((hex / 16) % 16);
    AsU8OfByte(hex % 16);
  }

  lemma AsU8OfByte(n: int)
    requires 0 <= n < 256
    ensures AsU8(n) == n
  {
  }

  lemma NibbleOneValue(hex: Word)
    ensures Rsh(BitAnd(hex, 0xF000), 12) == hex / 4096
  {
    MaskConstants();
    NibbleAt(hex, 12);
    assert Pow2(12) == 4096 by { Pow2Values(); }
    DivUnique(hex / 4096, 16, 0, hex / 4096);
  }

  lemma NibbleTwoValue(hex: Word)
    ensures Rsh(BitAnd(hex, 0x0F00), 8) == (hex / 256) % 16
  {
    Pow2Values();
    MaskConstants();
    NibbleAt(hex, 8);
  }

  lemma NibbleThreeValue(hex: Word)
    ensures Rsh(BitAnd(hex, 0x00F0), 4) == (hex / 16) % 16
  {
    Pow2Values();
    MaskConstants();
    NibbleAt(hex, 4);
  }

  lemma NibbleFourValue(hex: Word)
    ensures BitAnd(hex, 0x000F) == hex % 16
  {
    Pow2Values();
    AndLowMask(hex, 4);
  }

  /** `handle_op_code`: the opcode word's digits, then the dispatch on
      them, arm by arm and in the same order; the arms that panic become a
      `Failure`. */
  function Decode(hex: Word): (r: Result<Instr, Fatal>)
    ensures r.Failure? ==>
      r.error == if hex < 0x1000 then MachineCodeRoutine(hex) else UnrecognizedCommand(hex)
  {
    var (a, b, c, d) := Nibbles(hex);
    Dispatch(hex, a, b, c, d)
  }

  /** The match of `handle_op_code` on the digits `a b c d` of `hex`. Its
      arms never overlap across leading digits, so it is split by the
      leading digit; within each part the arms keep their order. */
  function Dispatch(hex: Word, a: Nibble, b: Nibble, c: Nibble, d: Nibble): (r: Result<Instr, Fatal>)
    ensures r.Failure? ==>
      r.error == if a == 0x0 then MachineCodeRoutine(hex) else UnrecognizedCommand(hex)
  {
    match a
    case 0x0 => DispatchSystem(hex, b, c, d)
    case 0x8 => DispatchArithmetic(hex, b, c, d)
    case 0xE => DispatchKeys(hex, b, c, d)
    case 0xF => DispatchMisc(hex, b, c, d)
    case _ => DispatchOthers(hex, a, b, c, d)
  }

  /** Leading digit 0: 00E0, 00EE, and machine-code routines. */
  function DispatchSystem(hex: Word, b: Nibble, c: Nibble, d: Nibble): (r: Result<Instr, Fatal>)
    ensures r.Success? <==> b == 0x0 && c == 0xE && (d == 0x0 || d == 0xE)
    ensures r.Failure? ==> r.error == MachineCodeRoutine(hex)
  {
    match (b, c, d)
    case (0x0, 0xE, 0x0) => Success(ClearDisplay)
    case (0x0, 0xE, 0xE) => Success(ReturnSub)
    case _ => Failure(MachineCodeRoutine(hex))
  }

  /** Leading digit 8: the register-to-register operations. */
  function DispatchArithmetic(hex: Word, x: Nibble, y: Nibble, d: Nibble): (r: Result<Instr, Fatal>)
    ensures r.Success? <==> d <= 0x7 || d == 0xE
    ensures r.Failure? ==> r.error == UnrecognizedCommand(hex)
  {
    match d
    case 0x0 => Success(SetXToY(x, y))
    case 0x1 => Success(SetXToYOr(x, y))
    case 0x2 => Success(SetXToYAnd(x, y))
    case 0x3 => Success(SetXToYXor(x, y))
    case 0x4 => Success(AddYToX(x, y))
    case 0x5 => Success(SubtractYFromX(x, y))
    case 0x6 => Success(ShiftRight(x, y))
    case 0x7 => Success(SubtractXFromY(x, y))
    case 0xE => Success(ShiftLeft(x, y))
    case _ => Failure(UnrecognizedCommand(hex))
  }

  /** Leading digit E: the key skips. */
  function DispatchKeys(hex: Word, x: Nibble, c: Nibble, d: Nibble): (r: Result<Instr, Fatal>)
    ensures r.Success? <==> (c == 0x9 && d == 0xE) || (c == 0xA && d == 0x1)
    ensures r.Failure? ==> r.error == UnrecognizedCommand(hex)
  {
    match (c, d)
    case (0x9, 0xE) => Success(SkipIfPressed(x))
    case (0xA, 0x1) => Success(SkipIfNotPressed(x))
    case _ => Failure(UnrecognizedCommand(hex))
  }

  /** Leading digit F: timers, key wait, `I` and memory transfers. */
  function DispatchMisc(hex: Word, x: Nibble, c: Nibble, d: Nibble): (r: Result<Instr, Fatal>)
    ensures r.Success? <==> (c, d) in {(0x0, 0x7), (0x0, 0xA), (0x1, 0x5), (0x1, 0x8), (0x1, 0xE),
                                       (0x2, 0x9), (0x3, 0x3), (0x5, 0x5), (0x6, 0x5)}
    ensures r.Failure? ==> r.error == UnrecognizedCommand(hex)
  {
    match (c, d)
    case (0x0, 0x7) => Success(SetVxToDelay(x))
    case (0x0, 0xA) => Success(GetKey(x))
    case (0x1, 0x5) => Success(SetDelayTimer(x))
    case (0x1, 0x8) => Success(SetSoundTimer(x))
    case (0x1, 0xE) => Success(AddVxToI(x))
    case (0x2, 0x9) => Success(SetIToSprite(x))
    case (0x3, 0x3) => Success(BinaryCodedDecimal(x))
    case (0x5, 0x5) => Success(RegDump(x))
    case (0x6, 0x5) => Success(RegLoad(x))
    case _ => Failure(UnrecognizedCommand(hex))
  }

  /** The remaining leading digits, each with a single arm. */
  function DispatchOthers(hex: Word, a: Nibble, b: Nibble, c: Nibble, d: Nibble): (r: Result<Instr, Fatal>)
    ensures r.Success? <==> a !in {0x0, 0x8, 0xE, 0xF} && (a == 0x5 || a == 0x9 ==> d == 0x0)
    ensures r.Failure? ==> r.error == UnrecognizedCommand(hex)
  {
    match (a, b, c, d)
    case (0x1, n1, n2, n3) => Success(Jump(n1, n2, n3))
    case (0x2, n1, n2, n3) => Success(Call(n1, n2, n3))
    case (0x3, x, n1, n2) => Success(SkipIfEqual(x, n1, n2))
    case (0x4, x, n1, n2) => Success(SkipIfNotEqual(x, n1, n2))
    case (0x5, x, y, 0x0) => Success(SkipIfRegistersEqual(x, y))
    case (0x6, x, n1, n2) => Success(SetRegisterTo(x, n1, n2))
    case (0x7, x, n1, n2) => Success(AddValueToRegister(x, n1, n2))
    case (0x9, x, y, 0x0) => Success(SkipIfRegistersNotEqual(x, y))
    case (0xA, n1, n2, n3) => Success(SetI(n1, n2, n3))
    case (0xB, n1, n2, n3) => Success(JumpPlusV0(n1, n2, n3))
    case (0xC, x, n1, n2) => Success(SetVxToRandAndNn(x, n1, n2))
    case (0xD, x, y, n) => Success(Draw(x, y, n))
    case _ => Failure(UnrecognizedCommand(hex))
  }

  /** The hexadecimal digits of each instruction's opcode word, most
      significant first. */
  function Digits(op: Instr): (Nibble, Nibble, Nibble, Nibble)
  {
    match op
    case ClearDisplay => (0x0, 0x0, 0xE, 0x0)
    case ReturnSub => (0x0, 0x0, 0xE, 0xE)
    case Jump(n1, n2, n3) => (0x1, n1, n2, n3)
    case Call(n1, n2, n3) => (0x2, n1, n2, n3)
    case SkipIfEqual(x, n1, n2) => (0x3, x, n1, n2)
    case SkipIfNotEqual(x, n1, n2) => (0x4, x, n1, n2)
    case SkipIfRegistersEqual(x, y) => (0x5, x, y, 0x0)
    case SetRegisterTo(x, n1, n2) => (0x6, x, n1, n2)
    case AddValueToRegister(x, n1, n2) => (0x7, x, n1, n2)
    case SetXToY(x, y) => (0x8, x, y, 0x0)
    case SetXToYOr(x, y) => (0x8, x, y, 0x1)
    case SetXToYAnd(x, y) => (0x8, x, y, 0x2)
    case SetXToYXor(x, y) => (0x8, x, y, 0x3)
    case AddYToX(x, y) => (0x8, x, y, 0x4)
    case SubtractYFromX(x, y) => (0x8, x, y, 0x5)
    case ShiftRight(x, y) => (0x8, x, y, 0x6)
    case SubtractXFromY(x, y) => (0x8, x, y, 0x7)
    case ShiftLeft(x, y) => (0x8, x, y, 0xE)
    case SkipIfRegistersNotEqual(x, y) => (0x9, x, y, 0x0)
    case SetI(n1, n2, n3) => (0xA, n1, n2, n3)
    case JumpPlusV0(n1, n2, n3) => (0xB, n1, n2, n3)
    case SetVxToRandAndNn(x, n1, n2) => (0xC, x, n1, n2)
    case Draw(x, y, n) => (0xD, x, y, n)
    case SkipIfPressed(x) => (0xE, x, 0x9, 0xE)
    case SkipIfNotPressed(x) => (0xE, x, 0xA, 0x1)
    case SetVxToDelay(x) => (0xF, x, 0x0, 0x7)
    case GetKey(x) => (0xF, x, 0x0, 0xA)
    case SetDelayTimer(x) => (0xF, x, 0x1, 0x5)
    case SetSoundTimer(x) => (0xF, x, 0x1, 0x8)
    case AddVxToI(x) => (0xF, x, 0x1, 0xE)
    case SetIToSprite(x) => (0xF, x, 0x2, 0x9)
    case BinaryCodedDecimal(x) => (0xF, x, 0x3, 0x3)
    case RegDump(x) => (0xF, x, 0x5, 0x5)
    case RegLoad(x) => (0xF, x, 0x6, 0x5)
  }

  /** The opcode word of each instruction: the reference against which
      `Decode` is proved (see `DecodeEncode` and `EncodeDecode`). */
  function Encode(op: Instr): (r: Word)
    ensures Nibbles(r) == Digits(op)
  {
    var (a, b, c, d) := Digits(op);
    NibblesOfWord4(a, b, c, d);
    Word4(a, b, c, d)
  }

  /** A word's hexadecimal digits are unique. */
  lemma NibblesOfWord4(a: Nibble, b: Nibble, c: Nibble, d: Nibble)
    ensures Nibbles(Word4(a, b, c, d)) == (a, b, c, d)
  {
    var hex := Word4(a, b, c, d);
    DivUnique(hex, 16, 256 * a + 16 * b + c, d);
    DivUnique(hex, 256, 16 * a + b, 16 * c + d);
    DivUnique(hex, 4096, a, 256 * b + 16 * c + d);
    DivUnique(16 * a + b, 16, a, b);
    DivUnique(256 * a + 16 * b + c, 16, 16 * a + b, c);
  }

  /** Every instruction decodes back from its opcode word. */
  lemma DecodeEncode(op: Instr)
    ensures Decode(Encode(op)) == Success(op)
  {
    var (a, b, c, d) := Digits(op);
    NibblesOfWord4(a, b, c, d);
    DispatchDigits(Encode(op), op);
  }

  lemma DispatchDigits(hex: Word, op: Instr)
    ensures var (a, b, c, d) := Digits(op); Dispatch(hex, a, b, c, d) == Success(op)
  {
  }

  /** Every word that decodes is the opcode word of what it decodes to. */
  lemma EncodeDecode(hex: Word)
    ensures Decode(hex).Success? ==> Encode(Decode(hex).value) == hex
  {
    var (a, b, c, d) := Nibbles(hex);
    DispatchKeepsDigits(hex, a, b, c, d);
  }

  lemma DispatchKeepsDigits(hex: Word, a: Nibble, b: Nibble, c: Nibble, d: Nibble)
    ensures Dispatch(hex, a, b, c, d).Success? ==> Digits(Dispatch(hex, a, b, c, d).value) == (a, b, c, d)
  {
    match a
    case 0x0 => SystemKeepsDigits(hex, b, c, d);
    case 0x8 => ArithmeticKeepsDigits(hex, b, c, d);
    case 0xE => KeysKeepDigits(hex, b, c, d);
    case 0xF => MiscKeepsDigits(hex, b, c, d);
    case _ => OthersKeepDigits(hex, a, b, c, d);
  }

  lemma SystemKeepsDigits(hex: Word, b: Nibble, c: Nibble, d: Nibble)
    ensures var r := DispatchSystem(hex, b, c, d); r.Success? ==> Digits(r.value) == (0x0, b, c, d)
  {
  }

  lemma ArithmeticKeepsDigits(hex: Word, b: Nibble, c: Nibble, d: Nibble)
    ensures var r := DispatchArithmetic(hex, b, c, d); r.Success? ==> Digits(r.value) == (0x8, b, c, d)
  {
  }

  lemma KeysKeepDigits(hex: Word, b: Nibble, c: Nibble, d: Nibble)
    ensures var r := DispatchKeys(hex, b, c, d); r.Success? ==> Digits(r.value) == (0xE, b, c, d)
  {
  }

  lemma MiscKeepsDigits(hex: Word, b: Nibble, c: Nibble, d: Nibble)
    ensures var r := DispatchMisc(hex, b, c, d); r.Success? ==> Digits(r.value) == (0xF, b, c, d)
  {
  }

  lemma OthersKeepDigits(hex: Word, a: Nibble, b: Nibble, c: Nibble, d: Nibble)
    requires a != 0x0 && a != 0x8 && a != 0xE && a != 0xF
    ensures var r := DispatchOthers(hex, a, b, c, d); r.Success? ==> Digits(r.value) == (a, b, c, d)
  {
  }

  /** The dispatch stops the program exactly on the words that are no
      instruction's opcode. */
  lemma {:induction false} DecodeFailsExactlyOffTheInstructionSet(hex: Word)
    ensures Decode(hex).Failure? <==> forall op :: Encode(op) != hex
  {
    if Decode(hex).Success? {
      EncodeDecode(hex);
    } else {
      forall op
        ensures Encode(op) != hex
      {
        DecodeEncode(op);
      }
    }
  }

  /** Of the 0nnn words only 00E0 and 00EE are instructions; every other one
      is a machine-code routine call, which stops the program. */
  lemma MachineCodeRoutines(hex: Word)
    ensures Decode(hex) == Failure(MachineCodeRoutine(hex)) <==> hex < 0x1000 && hex != 0x00E0 && hex != 0x00EE
  {
  }

  /** The address operand `nnn` the handlers rebuild with
      `to_u16_from_three` from the last three digits is the word's low twelve
      bits, `hex & 0x0FFF`. */
  lemma AddressOperand(hex: Word)
    ensures var (_, b, c, d) := Nibbles(hex);
      ToU16FromThree(b, c, d) == hex % 4096 == BitAnd(hex, 0x0FFF)
  {
    Pow2Values();
    AndLowMask(hex, 12);
  }

  // ---------------------------------------------------------------------
  // Construction, memory and the instruction cycle

  /** `load_to_memory`: `data` written byte by byte from address `start` on;
      every other cell keeps its value. */
  function Load(mem: seq<Byte>, data: seq<Byte>, start: nat): (r: seq<Byte>)
    requires start + |data| <= |mem|
    ensures |r| == |mem|
    ensures forall k :: 0 <= k < |mem| ==>
      r[k] == if start <= k < start + |data| then data[k - start] else mem[k]
  {
    mem[..start] + data + mem[start + |data|..]
  }

  function BlankScreen(): (s: Screen)
    ensures ScreenShaped(s)
    ensures forall y, x :: 0 <= y < CH8_HEIGHT && 0 <= x < CH8_WIDTH ==> !s[y][x]
  {
    seq(CH8_HEIGHT, _ => seq(CH8_WIDTH, _ => false))
  }

  /** `Chip8::new`: everything zero or empty, the handshake `Free`, the font
      at `FONT_POINTER`, the program at `PROGRAM_POINTER` and `pc` there too.
      A program longer than the memory above 0x200 is an index panic. */
  function Init(rom: seq<Byte>): (m: Machine)
    requires |rom| <= MEMORY_SIZE - PROGRAM_POINTER
    ensures m.Valid()
    ensures m.pc == PROGRAM_POINTER && m.stack == [] && m.i == 0
    ensures forall k :: 0 <= k < 16 ==> m.v[k] == 0
    ensures forall k :: 0 <= k < |FONT| ==> m.memory[FONT_POINTER + k] == FONT[k]
    ensures forall k :: 0 <= k < |rom| ==> m.memory[PROGRAM_POINTER + k] == rom[k]
    ensures forall a :: |FONT| <= a < PROGRAM_POINTER || PROGRAM_POINTER + |rom| <= a < MEMORY_SIZE ==>
      m.memory[a] == 0
    ensures m.delayTimer == 0 && m.soundTimer == 0 && m.vblank == Free
    ensures !m.blocked && m.blockedKeyVx == 0 && !m.vramChanged && m.vram == BlankScreen()
  {
    var zero := seq(MEMORY_SIZE, _ => 0);
    Machine(seq(16, _ => 0), 0, Load(Load(zero, FONT, FONT_POINTER), rom, PROGRAM_POINTER),
            [], 0, 0, PROGRAM_POINTER, BlankScreen(), false, false, 0, Free)
  }

  /** `fetch`: the big-endian word at `pc`, and `pc` moved past it. An
      address beyond the memory is an index panic. */
  function Fetch(m: Machine): (r: (Word, Machine))
    requires m.Valid() && m.pc + 1 < MEMORY_SIZE
    ensures r.0 / 256 == m.memory[m.pc] && r.0 % 256 == m.memory[m.pc + 1]
    ensures r.1 == m.(pc := m.pc + 2)
  {
    (ToU16(m.memory[m.pc], m.memory[m.pc + 1]), m.(pc := m.pc + 2))
  }

  /** `set_key`: the key that ended an Fx0A wait lands in the register the
      wait named, and the machine runs again. */
  function SetKey(m: Machine, key: Byte): (r: Machine)
    requires m.Valid()
    ensures r.Valid() && !r.blocked && r == m.(v := r.v, blocked := false)
    ensures r.v[m.blockedKeyVx] == key
    ensures forall k :: 0 <= k < 16 && k != m.blockedKeyVx ==> r.v[k] == m.v[k]
  {
    m.(v := m.v[m.blockedKeyVx := key], blocked := false)
  }

  /** `u8::saturating_sub(1)`. */
  function SaturatingDec(t: Byte): (r: Byte)
    ensures r <= t <= r + 1
    ensures r == t <==> t == 0
  {
    if t >= 1 then t - 1 else 0
  }

  /** `decrement_timers`: both timers count down by one and stop at zero. */
  function DecrementTimers(m: Machine): (r: Machine)
    ensures r == m.(delayTimer := r.delayTimer, soundTimer := r.soundTimer)
    ensures r.delayTimer <= m.delayTimer && r.soundTimer <= m.soundTimer
    ensures r.delayTimer == m.delayTimer <==> m.delayTimer == 0
    ensures r.soundTimer == m.soundTimer <==> m.soundTimer == 0
  {
    m.(delayTimer := SaturatingDec(m.delayTimer), soundTimer := SaturatingDec(m.soundTimer))
  }

  // ---------------------------------------------------------------------
  // Register arithmetic (8xy4 .. 8xyE)

  /** 8xy4: `Vx := (Vx + Vy) as u8`, then VF := bit 8 of the 9-bit sum. */
  function AddRegs(v: seq<Byte>, x: Nibble, y: Nibble): (r: seq<Byte>)
    requires |v| == 16
    ensures |r| == 16
    ensures forall k :: 0 <= k < 16 && k != x && k != VF ==> r[k] == v[k]
  {
    var res := v[x] as int + v[y];
    v[x := AsU8(res)][VF := if GetBitAtU16(res, 8) then 1 else 0]
  }

  /** 8xy5: `Vx := (Vx - Vy) as u8`, then VF := 1 when Vy < Vx. */
  function SubRegs(v: seq<Byte>, x: Nibble, y: Nibble): (r: seq<Byte>)
    requires |v| == 16
    ensures |r| == 16
    ensures forall k :: 0 <= k < 16 && k != x && k != VF ==> r[k] == v[k]
  {
    var noBorrow: Byte := if v[y] < v[x] then 1 else 0;
    v[x := AsU8(v[x] as int - v[y])][VF := noBorrow]
  }

  /** 8xy7: `Vx := (Vy - Vx) as u8`, then VF := 1 when Vx < Vy. */
  function SubnRegs(v: seq<Byte>, x: Nibble, y: Nibble): (r: seq<Byte>)
    requires |v| == 16
    ensures |r| == 16
    ensures forall k :: 0 <= k < 16 && k != x && k != VF ==> r[k] == v[k]
  {
    var noBorrow: Byte := if v[x] < v[y] then 1 else 0;
    v[x := AsU8(v[y] as int - v[x])][VF := noBorrow]
  }

  /** 8xy6: the shifting quirk, then VF := bit 0 of Vx read before
      `Vx >>= 1`, written after it. */
  function ShrRegs(q: Quirks, v: seq<Byte>, x: Nibble, y: Nibble): (r: seq<Byte>)
    requires |v| == 16
    ensures |r| == 16
    ensures forall k :: 0 <= k < 16 && k != x && k != VF ==> r[k] == v[k]
  {
    var s := AfterShifting(q, v, x, y);
    var lsb := GetBitAtU8(s[x], 0);
    RshIsByte(s[x], 1);
    s[x := Rsh(s[x], 1)][VF := if lsb then 1 else 0]
  }

  /** 8xyE: the shifting quirk, `Vx <<= 1`, then VF := bit 7 of the shifted
      Vx. */
  function ShlRegs(q: Quirks, v: seq<Byte>, x: Nibble, y: Nibble): (r: seq<Byte>)
    requires |v| == 16
    ensures |r| == 16
    ensures forall k :: 0 <= k < 16 && k != x && k != VF ==> r[k] == v[k]
  {
    var s := AfterShifting(q, v, x, y);
    ShlIsByte(s[x], 1);
    var t := s[x := Shl(s[x], 1, 8)];
    t[VF := if GetBitAtU8(t[x], 7) then 1 else 0]
  }

  // ---------------------------------------------------------------------
  // Binary-coded decimal (Fx33)

  /** The hundreds, tens and units digits of a byte, computed by the
      divisions and subtractions of `binary_coded_decimal`. */
  function BcdDigits(val: Byte): (r: (Byte, Byte, Byte))
    ensures r.0 == val / 100 && r.1 == (val / 10) % 10 && r.2 == val % 10
    ensures r.0 <= 2 && r.1 <= 9 && r.2 <= 9 && 100 * r.0 + 10 * r.1 + r.2 == val
  {
    var hundreds := val / 100;
    var rest := val - hundreds * 100;
    var tens := rest / 10;
    (hundreds, tens, rest - tens * 10)
  }

  /** Fx33: the three digits of Vx stored at `I`, `I + 1` and `I + 2`. */
  function StoreBcd(m: Machine, x: Nibble): (r: Machine)
    requires m.Valid() && m.i + 2 < MEMORY_SIZE
    ensures r.Valid() && r == m.(memory := r.memory)
    ensures forall a :: 0 <= a < MEMORY_SIZE && !(m.i <= a <= m.i + 2) ==> r.memory[a] == m.memory[a]
  {
    var (hundreds, tens, units) := BcdDigits(m.v[x]);
    m.(memory := m.memory[m.i := hundreds][m.i + 1 := tens][m.i + 2 := units])
  }

  // ---------------------------------------------------------------------
  // Register dump and load (Fx55, Fx65)

  /** Fx55: V0..Vx copied to memory from `I` on, then the memory quirk. */
  function DumpRegisters(m: Machine, q: Quirks, x: Nibble): (r: Machine)
    requires m.Valid() && m.i + x < MEMORY_SIZE
    ensures r.Valid() && r == m.(memory := r.memory, i := r.i)
  {
    m.(memory := Load(m.memory, m.v[..x + 1], m.i), i := AfterMemory(q, m.i, x))
  }

  /** Fx65: V0..Vx read from memory from `I` on, then the memory quirk. */
  function LoadRegisters(m: Machine, q: Quirks, x: Nibble): (r: Machine)
    requires m.Valid() && m.i + x < MEMORY_SIZE
    ensures r.Valid() && r == m.(v := r.v, i := r.i)
  {
    m.(v := m.memory[m.i .. m.i + x + 1] + m.v[x + 1..], i := AfterMemory(q, m.i, x))
  }

  // ---------------------------------------------------------------------
  // Sprites (Dxyn)

  /** Where a sprite starts: `Vx & 63` and `Vy & 31`, i.e. the registers
      wrapped onto the 64 x 32 screen. */
  function Origin(vx: Byte, vy: Byte): (r: (nat, nat))
    ensures r.0 == vx % CH8_WIDTH && r.1 == vy % CH8_HEIGHT
  {
    OriginValue(vx, vy);
    (BitAnd(vx, 63), BitAnd(vy, 31))
  }

  lemma OriginValue(vx: Byte, vy: Byte)
    ensures BitAnd(vx, 63) == vx % 64 && BitAnd(vy, 31) == vy % 32
  {
    Pow2Values();
    assert Pow2(5) == 32 && Pow2(6) == 64;
    AndLowMask(vx, 6);
    AndLowMask(vy, 5);
  }

  /** The `n` sprite rows at `I`; with `n == 0` no memory is read. */
  function Sprite(m: Machine, n: Nibble): (r: seq<Byte>)
    requires m.Valid() && (n == 0 || m.i + n <= MEMORY_SIZE)
    ensures |r| == n
    ensures forall k :: 0 <= k < n ==> r[k] == m.memory[m.i + k]
  {
    if n == 0 then [] else m.memory[m.i .. m.i + n]
  }

  /** Whether the sprite drawn at (`ox`, `oy`) has a lit bit over screen
      position (`x`, `y`); bit 7 of a row is its leftmost pixel. */
  predicate Hit(sprite: seq<Byte>, ox: nat, oy: nat, y: int, x: int)
  {
    oy <= y < oy + |sprite| && ox <= x < ox + 8 && GetBitAtU8(sprite[y - oy], 7 - (x - ox))
  }

  /** The screen after XOR-ing the sprite onto it. Pixels falling beyond the
      right or bottom edge are dropped: nothing wraps. */
  function Blit(s: Screen, sprite: seq<Byte>, ox: nat, oy: nat): (r: Screen)
    requires ScreenShaped(s)
    ensures ScreenShaped(r)
    ensures forall y, x :: 0 <= y < CH8_HEIGHT && 0 <= x < CH8_WIDTH ==>
      r[y][x] == (s[y][x] != Hit(sprite, ox, oy, y, x))
  {
    seq(CH8_HEIGHT, y requires 0 <= y < CH8_HEIGHT =>
      seq(CH8_WIDTH, x requires 0 <= x < CH8_WIDTH => s[y][x] != Hit(sprite, ox, oy, y, x)))
  }

  /** Two screens with the same pixels are the same screen. */
  lemma ScreensEqual(a: Screen, b: Screen)
    requires ScreenShaped(a) && ScreenShaped(b)
    requires forall y, x :: 0 <= y < CH8_HEIGHT && 0 <= x < CH8_WIDTH ==> a[y][x] == b[y][x]
    ensures a == b
  {
    forall y | 0 <= y < CH8_HEIGHT
      ensures a[y] == b[y]
    {
      assert forall x :: 0 <= x < CH8_WIDTH ==> a[y][x] == b[y][x];
    }
  }

  /** Whether drawing turns off a lit pixel. */
  predicate Collision(s: Screen, sprite: seq<Byte>, ox: nat, oy: nat)
    requires ScreenShaped(s)
  {
    exists y, x :: 0 <= y < CH8_HEIGHT && 0 <= x < CH8_WIDTH && Hit(sprite, ox, oy, y, x) && s[y][x]
  }

  /** Whether any lit sprite bit lands on the screen. */
  predicate Touches(sprite: seq<Byte>, ox: nat, oy: nat)
  {
    exists y, x :: 0 <= y < CH8_HEIGHT && 0 <= x < CH8_WIDTH && Hit(sprite, ox, oy, y, x)
  }

  /** A sprite changes the screen exactly when one of its lit bits lands on
      it, since every such bit flips the pixel under it. */
  lemma TouchesIffScreenChanges(s: Screen, sprite: seq<Byte>, ox: nat, oy: nat)
    requires ScreenShaped(s)
    ensures Touches(sprite, ox, oy) <==> Blit(s, sprite, ox, oy) != s
  {
    var b := Blit(s, sprite, ox, oy);
    if Touches(sprite, ox, oy) {
      var y, x :| 0 <= y < CH8_HEIGHT && 0 <= x < CH8_WIDTH && Hit(sprite, ox, oy, y, x);
      assert b[y][x] != s[y][x];
    } else {
      ScreensEqual(b, s);
    }
  }

  /** The drawing part of `draw`, once the display-wait quirk let it through. */
  function DrawSprite(m: Machine, x: Nibble, y: Nibble, n: Nibble): (r: Machine)
    requires m.Valid() && (n == 0 || m.i + n <= MEMORY_SIZE)
    ensures r.Valid()
    ensures r == m.(vram := r.vram, vramChanged := r.vramChanged, v := r.v)
    ensures r.v[..VF] == m.v[..VF]
    ensures var (ox, oy) := Origin(m.v[x], m.v[y]);
      r.v[VF] == (if Collision(m.vram, Sprite(m, n), ox, oy) then 1 else 0)
      && r.vram == Blit(m.vram, Sprite(m, n), ox, oy)
      && r.vramChanged == (m.vramChanged || Touches(Sprite(m, n), ox, oy))
    ensures r.vramChanged <==> m.vramChanged || r.vram != m.vram
  {
    var (ox, oy) := Origin(m.v[x], m.v[y]);
    var sprite := Sprite(m, n);
    TouchesIffScreenChanges(m.vram, sprite, ox, oy);
    m.(vram := Blit(m.vram, sprite, ox, oy),
       vramChanged := m.vramChanged || Touches(sprite, ox, oy),
       v := m.v[VF := if Collision(m.vram, sprite, ox, oy) then 1 else 0])
  }

  // ---------------------------------------------------------------------
  // Executing one instruction

  /** The condition under which a skip instruction skips. */
  predicate SkipTaken(m: Machine, op: Instr, key: Option<Byte>)
    requires m.Valid()
  {
    match op
    case SkipIfEqual(x, n1, n2) => m.v[x] == ToU8(n1, n2)
    case SkipIfNotEqual(x, n1, n2) => m.v[x] != ToU8(n1, n2)
    case SkipIfRegistersEqual(x, y) => m.v[x] == m.v[y]
    case SkipIfRegistersNotEqual(x, y) => m.v[x] != m.v[y]
    case SkipIfPressed(x) => key.Some? && key.value == m.v[x]
    case SkipIfNotPressed(x) => !(key.Some? && key.value == m.v[x])
    case _ => false
  }

  predicate IsSkip(op: Instr)
  {
    op.SkipIfEqual? || op.SkipIfNotEqual? || op.SkipIfRegistersEqual? ||
    op.SkipIfRegistersNotEqual? || op.SkipIfPressed? || op.SkipIfNotPressed?
  }

  /** What Rust demands for an instruction not to panic on an arithmetic
      overflow or an out-of-range memory index (debug build). */
  predicate CanExecute(m: Machine, q: Quirks, op: Instr, key: Option<Byte>)
    requires m.Valid()
  {
    match op
    case Draw(_, _, n) =>
      if q.DisplayWait(m.vblank).0 then m.pc >= 2 else n == 0 || m.i + n <= MEMORY_SIZE
    case AddVxToI(x) => m.i + m.v[x] < 0x1_0000
    case SetIToSprite(x) => m.v[x] as int * 5 < 0x100
    case BinaryCodedDecimal(_) => m.i + 2 < MEMORY_SIZE
    case RegDump(x) => m.i + x < MEMORY_SIZE
    case RegLoad(x) => m.i + x < MEMORY_SIZE
    case _ => IsSkip(op) && SkipTaken(m, op, key) ==> m.pc + 2 < 0x1_0000
  }

  /** The machine with new register values. */
  function WithV(m: Machine, v: seq<Byte>): (r: Machine)
    requires m.Valid() && |v| == 16
    ensures r.Valid()
  {
    m.(v := v)
  }

  /** The instructions that move `pc` or the stack. */
  predicate IsControl(op: Instr)
  {
    op.ClearDisplay? || op.ReturnSub? || op.Jump? || op.Call? || op.JumpPlusV0? || IsSkip(op)
  }

  /** The instructions that only change the general registers. */
  predicate IsArithmetic(op: Instr)
  {
    op.SetRegisterTo? || op.AddValueToRegister? || op.SetXToY? || op.SetXToYOr? ||
    op.SetXToYAnd? || op.SetXToYXor? || op.AddYToX? || op.SubtractYFromX? ||
    op.ShiftRight? || op.SubtractXFromY? || op.ShiftLeft? || op.SetVxToRandAndNn?
  }

  /** The handler `handle_op_code` runs for a decoded instruction; `key` is
      the key held down, if any, and `rnd` the byte `rand` draws for Cxkk. */
  function Exec(m: Machine, q: Quirks, op: Instr, key: Option<Byte>, rnd: Byte): (r: Result<Machine, Fatal>)
    requires m.Valid() && CanExecute(m, q, op, key)
    ensures r.Failure? <==> op == ReturnSub && m.stack == []
    ensures r.Success? ==> r.value.Valid()
  {
    if IsControl(op) then ExecControl(m, q, op, key)
    else if IsArithmetic(op) then Success(ExecArithmetic(m, q, op, rnd))
    else Success(ExecOther(m, q, op))
  }

  /** 00E0, 00EE, 1nnn, 2nnn, Bnnn and the six skips. */
  function ExecControl(m: Machine, q: Quirks, op: Instr, key: Option<Byte>): (r: Result<Machine, Fatal>)
    requires m.Valid() && IsControl(op) && CanExecute(m, q, op, key)
    ensures r.Failure? <==> op == ReturnSub && m.stack == []
    ensures r.Success? ==> r.value.Valid() && r.value.v == m.v && r.value.i == m.i && r.value.memory == m.memory
  {
    match op
    case ClearDisplay => Success(m.(vram := BlankScreen(), vramChanged := true))
    case ReturnSub =>
      if m.stack == [] then Failure(EmptyStack)
      else Success(m.(pc := m.stack[0], stack := m.stack[1..]))
    case Jump(n1, n2, n3) => Success(m.(pc := ToU16FromThree(n1, n2, n3)))
    case Call(n1, n2, n3) => Success(m.(stack := [m.pc] + m.stack, pc := ToU16FromThree(n1, n2, n3)))
    case JumpPlusV0(n1, n2, n3) => Success(m.(pc := ToU16FromThree(n1, n2, n3) + q.Jumping(m.v, n1)))
    case _ =>
      // the six skip instructions
      Success(if SkipTaken(m, op, key) then m.(pc := m.pc + 2) else m)
  }

  /** 6xkk to 8xyE and Cxkk: only the general registers change. */
  function ExecArithmetic(m: Machine, q: Quirks, op: Instr, rnd: Byte): (r: Machine)
    requires m.Valid() && IsArithmetic(op)
    ensures r.Valid() && r == m.(v := r.v)
  {
    match op
    case SetRegisterTo(x, n1, n2) => WithV(m, m.v[x := ToU8(n1, n2)])
    case AddValueToRegister(x, n1, n2) => WithV(m, m.v[x := AsU8(m.v[x] as int + ToU8(n1, n2))])
    case SetXToY(x, y) => WithV(m, m.v[x := m.v[y]])
    case SetXToYOr(x, y) => WithV(m, AfterVfReset(q, m.v[x := Or8(m.v[x], m.v[y])]))
    case SetXToYAnd(x, y) => WithV(m, AfterVfReset(q, m.v[x := And8(m.v[x], m.v[y])]))
    case SetXToYXor(x, y) => WithV(m, AfterVfReset(q, m.v[x := Xor8(m.v[x], m.v[y])]))
    case AddYToX(x, y) => WithV(m, AddRegs(m.v, x, y))
    case SubtractYFromX(x, y) => WithV(m, SubRegs(m.v, x, y))
    case ShiftRight(x, y) => WithV(m, ShrRegs(q, m.v, x, y))
    case SubtractXFromY(x, y) => WithV(m, SubnRegs(m.v, x, y))
    case ShiftLeft(x, y) => WithV(m, ShlRegs(q, m.v, x, y))
    case SetVxToRandAndNn(x, n1, n2) => WithV(m, m.v[x := And8(rnd, ToU8(n1, n2))])
  }

  /** Annn, Dxyn and Fx07 to Fx65: `I`, drawing, timers, keys and memory. */
  function ExecOther(m: Machine, q: Quirks, op: Instr): (r: Machine)
    requires m.Valid() && !IsControl(op) && !IsArithmetic(op) && CanExecute(m, q, op, None)
    ensures r.Valid() && r.stack == m.stack
  {
    match op
    case SetI(n1, n2, n3) => m.(i := ToU16FromThree(n1, n2, n3))
    case Draw(x, y, n) =>
      var (wait, vblank) := q.DisplayWait(m.vblank);
      if wait then m.(vblank := vblank, pc := m.pc - 2)
      else DrawSprite(m.(vblank := vblank), x, y, n)
    case SetVxToDelay(x) => WithV(m, m.v[x := m.delayTimer])
    case GetKey(x) => m.(blockedKeyVx := x, blocked := true)
    case SetDelayTimer(x) => m.(delayTimer := m.v[x])
    case SetSoundTimer(x) => m.(soundTimer := m.v[x])
    case AddVxToI(x) => m.(i := m.i + m.v[x])
    case SetIToSprite(x) => m.(i := FONT_POINTER + m.v[x] * 5)
    case BinaryCodedDecimal(x) => StoreBcd(m, x)
    case RegDump(x) => DumpRegisters(m, q, x)
    case RegLoad(x) => LoadRegisters(m, q, x)
  }

  /** `Exec` on an arithmetic instruction is `ExecArithmetic`. */
  lemma ExecArithmeticGroup(m: Machine, q: Quirks, op: Instr, key: Option<Byte>, rnd: Byte)
    requires m.Valid() && IsArithmetic(op)
    ensures CanExecute(m, q, op, key)
    ensures Exec(m, q, op, key, rnd) == Success(ExecArithmetic(m, q, op, rnd))
  {
    assert !IsControl(op);
  }

  /** 00EE is the only word that decodes to a return. */
  lemma ReturnOpcode(hex: Word)
    ensures Decode(hex) == Success(ReturnSub) <==> hex == 0x00EE
  {
    assert Encode(ReturnSub) == Word4(0x0, 0x0, 0xE, 0xE) == 0x00EE;
    DecodeEncode(ReturnSub);
    if Decode(hex) == Success(ReturnSub) {
      EncodeDecode(hex);
    }
  }

  /** Only the key skips Ex9E and ExA1 look at the key held down. */
  lemma CanExecuteIgnoresKey(m: Machine, q: Quirks, op: Instr, key: Option<Byte>)
    requires m.Valid() && !op.SkipIfPressed? && !op.SkipIfNotPressed?
    ensures CanExecute(m, q, op, key) == CanExecute(m, q, op, None)
  {
  }

  /** `handle_op_code`: decode, then run the handler; the panicking arms of
      the dispatch and a return with an empty stack are `Failure`s. */
  function HandleOpCode(m: Machine, q: Quirks, hex: Word, key: Option<Byte>, rnd: Byte): (r: Result<Machine, Fatal>)
    requires m.Valid()
    requires Decode(hex).Success? ==> CanExecute(m, q, Decode(hex).value, key)
    ensures r.Failure? <==> Decode(hex).Failure? || (hex == 0x00EE && m.stack == [])
  {
    match Decode(hex)
    case Failure(e) => Failure(e)
    case Success(op) =>
      ReturnOpcode(hex);
      Exec(m, q, op, key, rnd)
  }
}
