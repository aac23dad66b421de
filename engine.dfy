/** The `Chip8` struct of chip8.rs as an object whose fields the handlers
    update in place. Every method is proved to move the abstract state
    `State()` exactly as the value model `EngineSpec` prescribes. */
module Engine {
  import opened Wrappers
  import opened BitOps
  import opened RegisterFile
  import opened QuirkPolicy
  import opened EngineSpec

  /** Sprite pixel (`x`, `y`) has been handled once the loops of `draw` are
      at row `row`, column `pix`. */
  predicate Drawn(sprite: seq<Byte>, ox: nat, oy: nat, row: int, pix: int, y: int, x: int)
  {
    Hit(sprite, ox, oy, y, x) && (y - oy < row || (y - oy == row && x - ox < pix))
  }

  /** Some pixel handled so far was lit before the draw. */
  predicate ErasedSoFar(s: Screen, sprite: seq<Byte>, ox: nat, oy: nat, row: int, pix: int)
    requires ScreenShaped(s)
  {
    exists y, x :: 0 <= y < CH8_HEIGHT && 0 <= x < CH8_WIDTH && Drawn(sprite, ox, oy, row, pix, y, x) && s[y][x]
  }

  /** Some pixel handled so far is on the screen. */
  predicate TouchedSoFar(sprite: seq<Byte>, ox: nat, oy: nat, row: int, pix: int)
  {
    exists y, x :: 0 <= y < CH8_HEIGHT && 0 <= x < CH8_WIDTH && Drawn(sprite, ox, oy, row, pix, y, x)
  }

  /** Handling one more sprite pixel adds a lit pixel to those erased
      exactly when it lands on the screen over a lit pixel. */
  lemma {:induction false} ErasedStep(s: Screen, sprite: seq<Byte>, ox: nat, oy: nat, row: nat, pix: nat)
    requires ScreenShaped(s) && row < |sprite| && pix < 8
    ensures var cy, cx := oy + row, ox + pix;
      var here := cy < CH8_HEIGHT && cx < CH8_WIDTH && Hit(sprite, ox, oy, cy, cx);
      ErasedSoFar(s, sprite, ox, oy, row, pix + 1) <==> ErasedSoFar(s, sprite, ox, oy, row, pix) || (here && s[cy][cx])
  {
    var cy, cx := oy + row, ox + pix;
    if ErasedSoFar(s, sprite, ox, oy, row, pix + 1) {
      var y, x :| 0 <= y < CH8_HEIGHT && 0 <= x < CH8_WIDTH && Drawn(sprite, ox, oy, row, pix + 1, y, x) && s[y][x];
      if !(y == cy && x == cx) {
        assert Drawn(sprite, ox, oy, row, pix, y, x);
      }
    }
    if ErasedSoFar(s, sprite, ox, oy, row, pix) {
      var y, x :| 0 <= y < CH8_HEIGHT && 0 <= x < CH8_WIDTH && Drawn(sprite, ox, oy, row, pix, y, x) && s[y][x];
      assert Drawn(sprite, ox, oy, row, pix + 1, y, x);
    }
    if cy < CH8_HEIGHT && cx < CH8_WIDTH && Hit(sprite, ox, oy, cy, cx) {
      assert Drawn(sprite, ox, oy, row, pix + 1, cy, cx);
    }
  }

  /** Handling one more sprite pixel touches the screen exactly when that
      pixel is lit and on the screen. */
  lemma {:induction false} TouchedStep(sprite: seq<Byte>, ox: nat, oy: nat, row: nat, pix: nat)
    requires row < |sprite| && pix < 8
    ensures var cy, cx := oy + row, ox + pix;
      var here := cy < CH8_HEIGHT && cx < CH8_WIDTH && Hit(sprite, ox, oy, cy, cx);
      TouchedSoFar(sprite, ox, oy, row, pix + 1) <==> TouchedSoFar(sprite, ox, oy, row, pix) || here
  {
    var cy, cx := oy + row, ox + pix;
    if TouchedSoFar(sprite, ox, oy, row, pix + 1) {
      var y, x :| 0 <= y < CH8_HEIGHT && 0 <= x < CH8_WIDTH && Drawn(sprite, ox, oy, row, pix + 1, y, x);
      if !(y == cy && x == cx) {
        assert Drawn(sprite, ox, oy, row, pix, y, x);
      }
    }
    if TouchedSoFar(sprite, ox, oy, row, pix) {
      var y, x :| 0 <= y < CH8_HEIGHT && 0 <= x < CH8_WIDTH && Drawn(sprite, ox, oy, row, pix, y, x);
      assert Drawn(sprite, ox, oy, row, pix + 1, y, x);
    }
    if cy < CH8_HEIGHT && cx < CH8_WIDTH && Hit(sprite, ox, oy, cy, cx) {
      assert Drawn(sprite, ox, oy, row, pix + 1, cy, cx);
    }
  }

  /** Handling sprite pixel (`pix`, `row`) adds that pixel and no other. */
  lemma DrawnAt(sprite: seq<Byte>, ox: nat, oy: nat, row: nat, pix: nat, y: int, x: int)
    ensures Drawn(sprite, ox, oy, row, pix + 1, y, x) <==>
      Drawn(sprite, ox, oy, row, pix, y, x) || (y == oy + row && x == ox + pix && Hit(sprite, ox, oy, y, x))
  {
  }

  /** A finished row is the same as the start of the next one. */
  lemma RowDone(s: Screen, sprite: seq<Byte>, ox: nat, oy: nat, row: nat)
    requires ScreenShaped(s)
    ensures forall y, x :: Drawn(sprite, ox, oy, row, 8, y, x) <==> Drawn(sprite, ox, oy, row + 1, 0, y, x)
    ensures ErasedSoFar(s, sprite, ox, oy, row, 8) <==> ErasedSoFar(s, sprite, ox, oy, row + 1, 0)
    ensures TouchedSoFar(sprite, ox, oy, row, 8) <==> TouchedSoFar(sprite, ox, oy, row + 1, 0)
  {
    assert forall y, x :: Drawn(sprite, ox, oy, row, 8, y, x) <==> Drawn(sprite, ox, oy, row + 1, 0, y, x);
    if TouchedSoFar(sprite, ox, oy, row, 8) {
      var y, x :| 0 <= y < CH8_HEIGHT && 0 <= x < CH8_WIDTH && Drawn(sprite, ox, oy, row, 8, y, x);
      assert Drawn(sprite, ox, oy, row + 1, 0, y, x);
    }
    if TouchedSoFar(sprite, ox, oy, row + 1, 0) {
      var y, x :| 0 <= y < CH8_HEIGHT && 0 <= x < CH8_WIDTH && Drawn(sprite, ox, oy, row + 1, 0, y, x);
      assert Drawn(sprite, ox, oy, row, 8, y, x);
    }
  }

  /** Once every row is handled, the pixels handled are the sprite's. */
  lemma AllRowsDone(s: Screen, sprite: seq<Byte>, ox: nat, oy: nat)
    requires ScreenShaped(s)
    ensures forall y, x :: Drawn(sprite, ox, oy, |sprite|, 0, y, x) <==> Hit(sprite, ox, oy, y, x)
    ensures ErasedSoFar(s, sprite, ox, oy, |sprite|, 0) <==> Collision(s, sprite, ox, oy)
    ensures TouchedSoFar(sprite, ox, oy, |sprite|, 0) <==> Touches(sprite, ox, oy)
  {
    assert forall y, x :: Drawn(sprite, ox, oy, |sprite|, 0, y, x) <==> Hit(sprite, ox, oy, y, x);
  }

  /** The display holds the starting screen `s0` with every sprite pixel
      handled so far XOR-ed in. */
  ghost predicate Painted(a: array2<bool>, s0: Screen, sprite: seq<Byte>, ox: nat, oy: nat, row: int, pix: int)
    reads a
    requires ScreenShaped(s0)
  {
    a.Length0 == CH8_HEIGHT && a.Length1 == CH8_WIDTH &&
    forall y, x :: 0 <= y < CH8_HEIGHT && 0 <= x < CH8_WIDTH ==>
      a[y, x] == (s0[y][x] != Drawn(sprite, ox, oy, row, pix, y, x))
  }

  /** A display painted through the end of a row is painted up to the
      start of the next. */
  lemma PaintedRowDone(a: array2<bool>, s0: Screen, sprite: seq<Byte>, ox: nat, oy: nat, row: nat)
    requires ScreenShaped(s0) && Painted(a, s0, sprite, ox, oy, row, 8)
    ensures Painted(a, s0, sprite, ox, oy, row + 1, 0)
  {
    RowDone(s0, sprite, ox, oy, row);
  }

  /** A display painted with every row of the sprite is the blitted screen. */
  lemma PaintedAll(a: array2<bool>, s0: Screen, sprite: seq<Byte>, ox: nat, oy: nat)
    requires ScreenShaped(s0) && Painted(a, s0, sprite, ox, oy, |sprite|, 0)
    ensures ScreenOf(a) == Blit(s0, sprite, ox, oy)
  {
    AllRowsDone(s0, sprite, ox, oy);
    ScreensEqual(ScreenOf(a), Blit(s0, sprite, ox, oy));
  }

  /** A display array as rows of pixels. */
  ghost function ScreenOf(a: array2<bool>): (s: Screen)
    reads a
    requires a.Length0 == CH8_HEIGHT && a.Length1 == CH8_WIDTH
    ensures ScreenShaped(s)
    ensures forall y, x :: 0 <= y < CH8_HEIGHT && 0 <= x < CH8_WIDTH ==> s[y][x] == a[y, x]
  {
    seq(CH8_HEIGHT, y requires 0 <= y < CH8_HEIGHT reads a =>
      seq(CH8_WIDTH, x requires 0 <= x < CH8_WIDTH reads a => a[y, x]))
  }

  class Chip8 {
    const registers: Registers
    /** The 4 KiB address space, font and program included. */
    const memory: array<Byte>
    /** The return stack; `push_front` and `pop_front` work at index 0. */
    var stack: seq<Word>
    var delayTimer: Byte
    var soundTimer: Byte
    var pc: Word
    /** The display, replaced wholesale by 00E0 and written pixel by pixel
        by Dxyn. */
    var vram: array2<bool>
    var vramChanged: bool
    /** Set by Fx0A until `set_key` delivers a key. */
    var blocked: bool
    var blockedKeyVx: Byte
    /** `Config::quirks`; the debug-message switch is not modelled. */
    const quirks: Quirks
    var vblank: VBlank

    ghost predicate Valid()
      reads this, registers
    {
      registers.Valid() && memory.Length == MEMORY_SIZE && registers.v != memory
      && vram.Length0 == CH8_HEIGHT && vram.Length1 == CH8_WIDTH && blockedKeyVx < 16
    }

    /** The machine this object stands for. */
    ghost function State(): (m: Machine)
      reads this, registers, registers.v, memory, vram
      requires Valid()
      ensures m.Valid()
    {
      Machine(registers.v[..], registers.i, memory[..], stack, delayTimer, soundTimer, pc,
              ScreenOf(vram), vramChanged, blocked, blockedKeyVx, vblank)
    }

    /** `Chip8::new` with the default configuration. */
    constructor (rom: seq<Byte>)
      requires |rom| <= MEMORY_SIZE - PROGRAM_POINTER
      ensures Valid() && State() == Init(rom) && quirks == CH8_QUIRKS
      ensures fresh(registers) && fresh(registers.v) && fresh(memory) && fresh(vram)
    {
      registers := new Registers.Default();
      memory := new Byte[MEMORY_SIZE](_ => 0);
      stack := [];
      delayTimer, soundTimer := 0, 0;
      pc := PROGRAM_POINTER;
      vram := new bool[CH8_HEIGHT, CH8_WIDTH]((_, _) => false);
      vramChanged, blocked, blockedKeyVx := false, false, 0;
      quirks := CH8_QUIRKS;
      vblank := Free;
      new;
      assert memory[..] == seq(MEMORY_SIZE, _ => 0);
      assert registers.v[..] == seq(16, _ => 0);
      ScreensEqual(ScreenOf(vram), BlankScreen());
      LoadToMemory(FONT, FONT_POINTER);
      LoadToMemory(rom, PROGRAM_POINTER);
    }

    /** `load_to_memory`: copies `data` byte by byte from `start` on. */
    method LoadToMemory(data: seq<Byte>, start: Word)
      requires Valid() && start + |data| <= MEMORY_SIZE
      modifies memory
      ensures memory[..] == Load(old(memory[..]), data, start)
    {
      var currPoint := start;
      var k := 0;
      while k < |data|
        invariant 0 <= k <= |data| && currPoint == start + k
        invariant forall a :: 0 <= a < MEMORY_SIZE ==>
          memory[a] == if start <= a < start + k then data[a - start] else old(memory[a])
      {
        memory[currPoint] := data[k];
        currPoint := currPoint + 1;
        k := k + 1;
      }
      assert memory[..] == Load(old(memory[..]), data, start);
    }

    /** `fetch`: reads the big-endian word at `pc` and steps past it. */
    method Fetch() returns (instruction: Word)
      requires Valid() && pc + 1 < MEMORY_SIZE
      modifies this
      ensures Valid() && (instruction, State()) == EngineSpec.Fetch(old(State()))
    {
      instruction := ToU16(memory[pc], memory[pc + 1]);
      pc := pc + 2;
    }

    /** `handle_op_code`: decodes `hex` and runs its handler. A panicking
        arm of the dispatch, or a return with an empty stack, comes back as
        the `Fatal` reason and leaves the state alone. `rnd` is the byte
        `rand` would draw for Cxkk. */
    method HandleOpCode(hex: Word, key: Option<Byte>, rnd: Byte) returns (fatal: Option<Fatal>)
      requires Valid()
      requires Decode(hex).Success? ==> CanExecute(State(), quirks, Decode(hex).value, key)
      modifies this, registers, registers.v, memory, vram
      ensures Valid()
      ensures var r := EngineSpec.HandleOpCode(old(State()), quirks, hex, key, rnd);
        if r.Success? then fatal == None && State() == r.value
        else fatal == Some(r.error) && State() == old(State())
    {
      match Decode(hex)
      case Failure(e) =>
        fatal := Some(e);
      case Success(op) =>
        fatal := Execute(op, key, rnd);
    }

    /** The match arms of `handle_op_code` that call a handler. */
    method Execute(op: Instr, key: Option<Byte>, rnd: Byte) returns (fatal: Option<Fatal>)
      requires Valid() && CanExecute(State(), quirks, op, key)
      modifies this, registers, registers.v, memory, vram
      ensures Valid()
      ensures var r := Exec(old(State()), quirks, op, key, rnd);
        if r.Success? then fatal == None && State() == r.value
        else fatal == Some(r.error) && State() == old(State())
    {
      if IsControl(op) {
        fatal := ExecuteControl(op, key);
      } else if IsArithmetic(op) {
        ExecuteArithmetic(op, rnd);
        fatal := None;
      } else {
        CanExecuteIgnoresKey(State(), quirks, op, key);
        ExecuteOther(op);
        fatal := None;
      }
    }

    /** Arms 00E0 to 5xy0, 9xy0, Bnnn, Ex9E and ExA1: the ones that move
        `pc` or the stack. */
    method ExecuteControl(op: Instr, key: Option<Byte>) returns (fatal: Option<Fatal>)
      requires Valid() && IsControl(op) && CanExecute(State(), quirks, op, key)
      modifies this
      ensures Valid()
      ensures var r := ExecControl(old(State()), quirks, op, key);
        if r.Success? then fatal == None && State() == r.value
        else fatal == Some(r.error) && State() == old(State())
    {
      fatal := None;
      if IsSkip(op) {
        ExecuteSkip(op, key);
        return;
      }
      match op
      case ClearDisplay => ClearDisplay();
      case ReturnSub => fatal := ReturnSub();
      case Jump(n1, n2, n3) => Jump(n1, n2, n3);
      case Call(n1, n2, n3) => Call(n1, n2, n3);
      case JumpPlusV0(n1, n2, n3) => JumpPlusV0(n1, n2, n3);
    }

    /** The six conditional skips. */
    method ExecuteSkip(op: Instr, key: Option<Byte>)
      requires Valid() && IsSkip(op) && CanExecute(State(), quirks, op, key)
      modifies this
      ensures Valid() && ExecControl(old(State()), quirks, op, key) == Success(State())
    {
      if !op.SkipIfPressed? && !op.SkipIfNotPressed? {
        CanExecuteIgnoresKey(State(), quirks, op, key);
      }
      match op
      case SkipIfEqual(x, n1, n2) => SkipIfEqual(x, n1, n2);
      case SkipIfNotEqual(x, n1, n2) => SkipIfNotEqual(x, n1, n2);
      case SkipIfRegistersEqual(x, y) => SkipIfRegistersEqual(x, y);
      case SkipIfRegistersNotEqual(x, y) => SkipIfRegistersNotEqual(x, y);
      case SkipIfPressed(x) => SkipIfPressed(x, key);
      case SkipIfNotPressed(x) => SkipIfNotPressed(x, key);
    }

    /** Arms 6xkk to 8xyE and Cxkk: the ones that only change V0..VF. */
    method ExecuteArithmetic(op: Instr, rnd: Byte)
      requires Valid() && IsArithmetic(op)
      modifies registers.v
      ensures Valid() && State() == ExecArithmetic(old(State()), quirks, op, rnd)
    {
      match op
      case SetRegisterTo(x, n1, n2) => SetRegisterTo(x, n1, n2);
      case AddValueToRegister(x, n1, n2) => AddValueToRegister(x, n1, n2);
      case SetXToY(x, y) => SetXToY(x, y);
      case SetXToYOr(x, y) => SetXToYOr(x, y);
      case SetXToYAnd(x, y) => SetXToYAnd(x, y);
      case SetXToYXor(x, y) => SetXToYXor(x, y);
      case AddYToX(x, y) => AddYToX(x, y);
      case SubtractYFromX(x, y) => SubtractYFromX(x, y);
      case ShiftRight(x, y) => ShiftRight(x, y);
      case SubtractXFromY(x, y) => SubtractXFromY(x, y);
      case ShiftLeft(x, y) => ShiftLeft(x, y);
      case SetVxToRandAndNn(x, n1, n2) => SetVxToRandAndNn(x, n1, n2, rnd);
    }

    /** Arms Annn, Dxyn and Fx07 to Fx65: drawing, timers, keys and memory. */
    method ExecuteOther(op: Instr)
      requires Valid() && !IsControl(op) && !IsArithmetic(op) && CanExecute(State(), quirks, op, None)
      modifies this, registers, registers.v, memory, vram
      ensures Valid() && State() == ExecOther(old(State()), quirks, op)
    {
      match op
      case SetI(n1, n2, n3) => SetI(n1, n2, n3);
      case Draw(x, y, n) => Draw(x, y, n);
      case SetVxToDelay(x) => SetVxToDelay(x);
      case GetKey(x) => GetKey(x);
      case SetDelayTimer(x) => SetDelayTimer(x);
      case SetSoundTimer(x) => SetSoundTimer(x);
      case AddVxToI(x) => AddVxToI(x);
      case SetIToSprite(x) => SetIToSprite(x);
      case BinaryCodedDecimal(x) => BinaryCodedDecimal(x);
      case RegDump(x) => RegDump(x);
      case RegLoad(x) => RegLoad(x);
    }

    /** `get_pixel`. */
    function GetPixel(y: nat, x: nat): (r: bool)
      reads this, vram
      requires vram.Length0 == CH8_HEIGHT && vram.Length1 == CH8_WIDTH
      requires y < CH8_HEIGHT && x < CH8_WIDTH
      ensures r == ScreenOf(vram)[y][x]
    {
      vram[y, x]
    }

    /** `set_pixel`: one pixel of the display changes and no other. */
    method SetPixel(y: nat, x: nat, val: bool)
      requires vram.Length0 == CH8_HEIGHT && vram.Length1 == CH8_WIDTH
      requires y < CH8_HEIGHT && x < CH8_WIDTH
      modifies vram
      ensures ScreenOf(vram) == old(ScreenOf(vram))[y := old(ScreenOf(vram))[y][x := val]]
    {
      ghost var before := ScreenOf(vram);
      vram[y, x] := val;
      ScreensEqual(ScreenOf(vram), before[y := before[y][x := val]]);
    }

    /** `skip`: steps over the next instruction. */
    method Skip()
      requires Valid() && pc + 2 < 0x1_0000
      modifies this
      ensures Valid() && State() == old(State()).(pc := old(pc) + 2)
    {
      pc := pc + 2;
    }

    /** 00E0 `clear_display`: a fresh, dark screen. */
    method ClearDisplay()
      requires Valid()
      modifies this
      ensures Valid() && ExecControl(old(State()), quirks, Instr.ClearDisplay, None) == Success(State())
    {
      vram := new bool[CH8_HEIGHT, CH8_WIDTH]((_, _) => false);
      vramChanged := true;
      ScreensEqual(ScreenOf(vram), BlankScreen());
    }

    /** 00EE `return_sub`: pops the front of the stack into `pc`; an empty
        stack is the `unwrap` panic. */
    method ReturnSub() returns (fatal: Option<Fatal>)
      requires Valid()
      modifies this
      ensures Valid()
      ensures var r := ExecControl(old(State()), quirks, Instr.ReturnSub, None);
        if r.Success? then fatal == None && State() == r.value
        else fatal == Some(r.error) && State() == old(State())
    {
      if stack == [] {
        return Some(EmptyStack);
      }
      var addr := stack[0];
      stack := stack[1..];
      pc := addr;
      fatal := None;
    }

    /** 1nnn `jump`. */
    method Jump(n1: Nibble, n2: Nibble, n3: Nibble)
      requires Valid()
      modifies this
      ensures Valid() && ExecControl(old(State()), quirks, Instr.Jump(n1, n2, n3), None) == Success(State())
    {
      var addr := ToU16FromThree(n1, n2, n3);
      pc := addr;
    }

    /** 2nnn `call`: pushes `pc` on the front of the stack and jumps. */
    method Call(n1: Nibble, n2: Nibble, n3: Nibble)
      requires Valid()
      modifies this
      ensures Valid() && ExecControl(old(State()), quirks, Instr.Call(n1, n2, n3), None) == Success(State())
    {
      var addr := ToU16FromThree(n1, n2, n3);
      stack := [pc] + stack;
      pc := addr;
    }

    /** 3xkk `skip_if_equal`. */
    method SkipIfEqual(x: Nibble, n1: Nibble, n2: Nibble)
      requires Valid() && (registers.Get(x) == ToU8(n1, n2) ==> pc + 2 < 0x1_0000)
      modifies this
      ensures Valid() && ExecControl(old(State()), quirks, Instr.SkipIfEqual(x, n1, n2), None) == Success(State())
    {
      var val := ToU8(n1, n2);
      if registers.Get(x) == val {
        Skip();
      }
    }

    /** 4xkk `skip_if_not_equal`. */
    method SkipIfNotEqual(x: Nibble, n1: Nibble, n2: Nibble)
      requires Valid() && (registers.Get(x) != ToU8(n1, n2) ==> pc + 2 < 0x1_0000)
      modifies this
      ensures Valid() && ExecControl(old(State()), quirks, Instr.SkipIfNotEqual(x, n1, n2), None) == Success(State())
    {
      var val := ToU8(n1, n2);
      if registers.Get(x) != val {
        Skip();
      }
    }

    /** 5xy0 `skip_if_registers_equal`. */
    method SkipIfRegistersEqual(x: Nibble, y: Nibble)
      requires Valid() && (registers.Get(x) == registers.Get(y) ==> pc + 2 < 0x1_0000)
      modifies this
      ensures Valid() && ExecControl(old(State()), quirks, Instr.SkipIfRegistersEqual(x, y), None) == Success(State())
    {
      if registers.Get(x) == registers.Get(y) {
        Skip();
      }
    }

    /** 9xy0 `skip_if_registers_not_equal`. */
    method SkipIfRegistersNotEqual(x: Nibble, y: Nibble)
      requires Valid() && (registers.Get(x) != registers.Get(y) ==> pc + 2 < 0x1_0000)
      modifies this
      ensures Valid() && ExecControl(old(State()), quirks, Instr.SkipIfRegistersNotEqual(x, y), None) == Success(State())
    {
      if registers.Get(x) != registers.Get(y) {
        Skip();
      }
    }

    /** Ex9E `skip_if_pressed`: skips when the key held down is Vx. */
    method SkipIfPressed(x: Nibble, key: Option<Byte>)
      requires Valid() && (key.Some? && key.value == registers.Get(x) ==> pc + 2 < 0x1_0000)
      modifies this
      ensures Valid() && ExecControl(old(State()), quirks, Instr.SkipIfPressed(x), key) == Success(State())
    {
      if key.Some? {
        if key.value == registers.Get(x) {
          Skip();
        }
      }
    }

    /** ExA1 `skip_if_not_pressed`: skips unless the key held down is Vx. */
    method SkipIfNotPressed(x: Nibble, key: Option<Byte>)
      requires Valid() && (!(key.Some? && key.value == registers.Get(x)) ==> pc + 2 < 0x1_0000)
      modifies this
      ensures Valid() && ExecControl(old(State()), quirks, Instr.SkipIfNotPressed(x), key) == Success(State())
    {
      if key.Some? {
        if key.value == registers.Get(x) {
          return;
        }
      }
      Skip();
    }

    /** 6xkk `set_register_to`. */
    method SetRegisterTo(x: Nibble, n1: Nibble, n2: Nibble)
      requires Valid()
      modifies registers.v
      ensures Valid() && State() == ExecArithmetic(old(State()), quirks, Instr.SetRegisterTo(x, n1, n2), 0)
    {
      var val := ToU8(n1, n2);
      registers.Set(x, val);
    }

    /** 7xkk `add_value_to_register`: the sum is truncated to a byte. */
    method AddValueToRegister(x: Nibble, n1: Nibble, n2: Nibble)
      requires Valid()
      modifies registers.v
      ensures Valid() && State() == ExecArithmetic(old(State()), quirks, Instr.AddValueToRegister(x, n1, n2), 0)
    {
      ghost var m := State();
      var val := ToU8(n1, n2);
      var res := registers.Get(x) as int + val;
      registers.Set(x, AsU8(res));
      assert State() == WithV(m, m.v[x := AsU8(m.v[x] as int + ToU8(n1, n2))]);
    }

    /** 8xy0 `set_x_to_y`. */
    method SetXToY(x: Nibble, y: Nibble)
      requires Valid()
      modifies registers.v
      ensures Valid() && State() == ExecArithmetic(old(State()), quirks, Instr.SetXToY(x, y), 0)
    {
      registers.Set(x, registers.Get(y));
    }

    /** 8xy1 `set_x_to_y_or`, then the VF-reset quirk. */
    method SetXToYOr(x: Nibble, y: Nibble)
      requires Valid()
      modifies registers.v
      ensures Valid() && State() == ExecArithmetic(old(State()), quirks, Instr.SetXToYOr(x, y), 0)
    {
      registers.Or(x, y);
      quirks.VfReset(registers);
    }

    /** 8xy2 `set_x_to_y_and`, then the VF-reset quirk. */
    method SetXToYAnd(x: Nibble, y: Nibble)
      requires Valid()
      modifies registers.v
      ensures Valid() && State() == ExecArithmetic(old(State()), quirks, Instr.SetXToYAnd(x, y), 0)
    {
      registers.And(x, y);
      quirks.VfReset(registers);
    }

    /** 8xy3 `set_x_to_y_xor`, then the VF-reset quirk. */
    method SetXToYXor(x: Nibble, y: Nibble)
      requires Valid()
      modifies registers.v
      ensures Valid() && State() == ExecArithmetic(old(State()), quirks, Instr.SetXToYXor(x, y), 0)
    {
      registers.Xor(x, y);
      quirks.VfReset(registers);
    }

    /** 8xy4 `add_y_to_x`: the 16-bit sum, truncated into Vx, bit 8 into VF. */
    method AddYToX(x: Nibble, y: Nibble)
      requires Valid()
      modifies registers.v
      ensures Valid() && State() == ExecArithmetic(old(State()), quirks, Instr.AddYToX(x, y), 0)
    {
      ghost var m := State();
      var res := registers.Get(x) as int + registers.Get(y);
      registers.Set(x, AsU8(res));
      registers.SetVf(if GetBitAtU16(res, 8) then 1 else 0);
      assert registers.v[..] == AddRegs(m.v, x, y);
    }

    /** 8xy5 `subtract_y_from_x`: the 16-bit signed difference, truncated
        into Vx; VF is 1 when Vy < Vx. */
    method SubtractYFromX(x: Nibble, y: Nibble)
      requires Valid()
      modifies registers.v
      ensures Valid() && State() == ExecArithmetic(old(State()), quirks, Instr.SubtractYFromX(x, y), 0)
    {
      ghost var m := State();
      var noBorrow: Byte := if registers.Get(y) < registers.Get(x) then 1 else 0;
      var res := registers.Get(x) as int - registers.Get(y);
      registers.Set(x, AsU8(res));
      registers.SetVf(noBorrow);
      assert registers.v[..] == SubRegs(m.v, x, y);
    }

    /** 8xy6 `shift_right`: the shifting quirk, then bit 0 into VF. */
    method ShiftRight(x: Nibble, y: Nibble)
      requires Valid()
      modifies registers.v
      ensures Valid() && State() == ExecArithmetic(old(State()), quirks, Instr.ShiftRight(x, y), 0)
    {
      ghost var m := State();
      quirks.Shifting(registers, x, y);
      var lsb := GetBitAtU8(registers.Get(x), 0);
      registers.ShiftRight(x, 1);
      registers.SetVf(if lsb then 1 else 0);
      assert registers.v[..] == ShrRegs(quirks, m.v, x, y);
    }

    /** 8xy7 `subtract_x_from_y_and_assign_to_x`: VF is 1 when Vx < Vy. */
    method SubtractXFromY(x: Nibble, y: Nibble)
      requires Valid()
      modifies registers.v
      ensures Valid() && State() == ExecArithmetic(old(State()), quirks, Instr.SubtractXFromY(x, y), 0)
    {
      ghost var m := State();
      var noBorrow: Byte := if registers.Get(x) < registers.Get(y) then 1 else 0;
      var res := registers.Get(y) as int - registers.Get(x);
      registers.Set(x, AsU8(res));
      registers.SetVf(noBorrow);
      assert registers.v[..] == SubnRegs(m.v, x, y);
    }

    /** 8xyE `shift_left`: the shifting quirk, the shift, then bit 7 of the
        shifted Vx into VF. */
    method ShiftLeft(x: Nibble, y: Nibble)
      requires Valid()
      modifies registers.v
      ensures Valid() && State() == ExecArithmetic(old(State()), quirks, Instr.ShiftLeft(x, y), 0)
    {
      ghost var m := State();
      quirks.Shifting(registers, x, y);
      registers.ShiftLeft(x, 1);
      var msb := GetBitAtU8(registers.Get(x), 7);
      registers.SetVf(if msb then 1 else 0);
      assert registers.v[..] == ShlRegs(quirks, m.v, x, y);
    }

    /** Annn `set_i`. */
    method SetI(n1: Nibble, n2: Nibble, n3: Nibble)
      requires Valid()
      modifies registers
      ensures Valid() && State() == ExecOther(old(State()), quirks, Instr.SetI(n1, n2, n3))
    {
      var addr := ToU16FromThree(n1, n2, n3);
      registers.i := addr;
    }

    /** Bnnn `jump_plus_v0`, with the jumping quirk choosing the register. */
    method JumpPlusV0(n1: Nibble, n2: Nibble, n3: Nibble)
      requires Valid()
      modifies this
      ensures Valid() && ExecControl(old(State()), quirks, Instr.JumpPlusV0(n1, n2, n3), None) == Success(State())
    {
      ghost var m := State();
      var addr := ToU16FromThree(n1, n2, n3);
      var offset := quirks.Jumping(registers.v[..], n1);
      assert offset == quirks.Jumping(m.v, n1);
      pc := addr + offset;
      assert State() == m.(pc := addr + offset);
    }

    /** Cxkk `set_vx_to_rand_and_nn`, with the random byte passed in. */
    method SetVxToRandAndNn(x: Nibble, n1: Nibble, n2: Nibble, rnd: Byte)
      requires Valid()
      modifies registers.v
      ensures Valid() && State() == ExecArithmetic(old(State()), quirks, Instr.SetVxToRandAndNn(x, n1, n2), rnd)
    {
      var val := ToU8(n1, n2);
      registers.Set(x, And8(rnd, val));
    }

    /** Dxyn `draw`: under display wait, a draw that must wait steps `pc`
        back so it runs again; otherwise the sprite is drawn. */
    method Draw(x: Nibble, y: Nibble, n: Nibble)
      requires Valid()
      requires if quirks.DisplayWait(vblank).0 then pc >= 2 else n == 0 || registers.i + n <= MEMORY_SIZE
      modifies this, registers.v, vram
      ensures Valid() && State() == ExecOther(old(State()), quirks, Instr.Draw(x, y, n))
    {
      var (wait, next) := quirks.DisplayWait(vblank);
      vblank := next;
      if wait {
        pc := pc - 2;
        return;
      }
      DrawRows(x, y, n);
    }

    /** The two loops of `draw`: each lit sprite bit that lands on the
        screen flips its pixel, noting whether a lit pixel went dark; VF
        gets that note. */
    method DrawRows(x: Nibble, y: Nibble, n: Nibble)
      requires Valid() && (n == 0 || registers.i + n <= MEMORY_SIZE)
      modifies registers.v, vram, this`vramChanged
      ensures Valid() && State() == EngineSpec.DrawSprite(old(State()), x, y, n)
    {
      ghost var m0 := State();
      ghost var sprite := Sprite(m0, n);
      var vx := BitAnd(registers.Get(x), 63);
      var vy := BitAnd(registers.Get(y), 31);
      OriginValue(registers.Get(x), registers.Get(y));
      var flipped := false;
      var row := 0;
      while row < n
        invariant 0 <= row <= n
        invariant registers.v[..] == m0.v
        invariant Painted(vram, m0.vram, sprite, vx, vy, row, 0)
        invariant flipped <==> ErasedSoFar(m0.vram, sprite, vx, vy, row, 0)
        invariant vramChanged <==> m0.vramChanged || TouchedSoFar(sprite, vx, vy, row, 0)
      {
        assert memory[registers.i + row] == sprite[row];
        flipped := DrawRow(m0.vram, sprite, m0.vramChanged, vx, vy, row, flipped);
        row := row + 1;
      }
      AllRowsDone(m0.vram, sprite, vx, vy);
      PaintedAll(vram, m0.vram, sprite, vx, vy);
      registers.SetVf(if flipped then 1 else 0);
    }

    /** The inner loop of `draw`: the eight pixels of sprite row `row`. */
    method DrawRow(ghost s0: Screen, ghost sprite: seq<Byte>, ghost changed0: bool,
                   vx: nat, vy: nat, row: nat, flippedIn: bool) returns (flipped: bool)
      requires Valid() && ScreenShaped(s0) && row < |sprite| && vx < CH8_WIDTH && vy < CH8_HEIGHT
      requires registers.i + row < MEMORY_SIZE && memory[registers.i + row] == sprite[row]
      requires Painted(vram, s0, sprite, vx, vy, row, 0)
      requires flippedIn <==> ErasedSoFar(s0, sprite, vx, vy, row, 0)
      requires vramChanged <==> changed0 || TouchedSoFar(sprite, vx, vy, row, 0)
      modifies vram, this`vramChanged
      ensures Painted(vram, s0, sprite, vx, vy, row + 1, 0)
      ensures flipped <==> ErasedSoFar(s0, sprite, vx, vy, row + 1, 0)
      ensures vramChanged <==> changed0 || TouchedSoFar(sprite, vx, vy, row + 1, 0)
    {
      flipped := flippedIn;
      var pix := 0;
      while pix < 8
        invariant 0 <= pix <= 8
        invariant Painted(vram, s0, sprite, vx, vy, row, pix)
        invariant flipped <==> ErasedSoFar(s0, sprite, vx, vy, row, pix)
        invariant vramChanged <==> changed0 || TouchedSoFar(sprite, vx, vy, row, pix)
      {
        flipped := DrawPixel(s0, sprite, changed0, vx, vy, row, pix, flipped);
        pix := pix + 1;
      }
      RowDone(s0, sprite, vx, vy, row);
      PaintedRowDone(vram, s0, sprite, vx, vy, row);
    }

    /** One pass of the inner loop of `draw`: a lit sprite bit on the screen
        XORs its pixel and notes a lit pixel going dark. */
    method DrawPixel(ghost s0: Screen, ghost sprite: seq<Byte>, ghost changed0: bool,
                     vx: nat, vy: nat, row: nat, pix: nat, flippedIn: bool) returns (flipped: bool)
      requires Valid() && ScreenShaped(s0) && row < |sprite| && pix < 8
      requires registers.i + row < MEMORY_SIZE && memory[registers.i + row] == sprite[row]
      requires Painted(vram, s0, sprite, vx, vy, row, pix)
      requires flippedIn <==> ErasedSoFar(s0, sprite, vx, vy, row, pix)
      requires vramChanged <==> changed0 || TouchedSoFar(sprite, vx, vy, row, pix)
      modifies vram, this`vramChanged
      ensures Painted(vram, s0, sprite, vx, vy, row, pix + 1)
      ensures flipped <==> ErasedSoFar(s0, sprite, vx, vy, row, pix + 1)
      ensures vramChanged <==> changed0 || TouchedSoFar(sprite, vx, vy, row, pix + 1)
    {
      ErasedStep(s0, sprite, vx, vy, row, pix);
      TouchedStep(sprite, vx, vy, row, pix);
      flipped := flippedIn;
      var iVal := memory[registers.i + row];
      var iBit := GetBitAtU8(iVal, 7 - pix);
      var currX := vx + pix;
      var currY := vy + row;
      ghost var before := ScreenOf(vram);
      if iBit && currX < CH8_WIDTH && currY < CH8_HEIGHT {
        assert Hit(sprite, vx, vy, currY, currX) && !Drawn(sprite, vx, vy, row, pix, currY, currX);
        var currentPixel := GetPixel(currY, currX);
        var screenVal := iBit != currentPixel;
        if !screenVal && currentPixel {
          flipped := true;
        }
        SetPixel(currY, currX, screenVal);
        vramChanged := true;
      }
      forall cy, cx | 0 <= cy < CH8_HEIGHT && 0 <= cx < CH8_WIDTH
        ensures vram[cy, cx] == (s0[cy][cx] != Drawn(sprite, vx, vy, row, pix + 1, cy, cx))
      {
        DrawnAt(sprite, vx, vy, row, pix, cy, cx);
        if cy != currY || cx != currX {
          assert vram[cy, cx] == before[cy][cx];
        }
      }
    }

    /** Fx07 `set_vx_to_delay`. */
    method SetVxToDelay(x: Nibble)
      requires Valid()
      modifies registers.v
      ensures Valid() && State() == ExecOther(old(State()), quirks, Instr.SetVxToDelay(x))
    {
      registers.Set(x, delayTimer);
    }

    /** Fx0A `get_key`: blocks until `set_key`, remembering the register. */
    method GetKey(x: Nibble)
      requires Valid()
      modifies this
      ensures Valid() && State() == ExecOther(old(State()), quirks, Instr.GetKey(x))
    {
      blockedKeyVx := x;
      blocked := true;
    }

    /** Fx15 `set_delay_timer`. */
    method SetDelayTimer(x: Nibble)
      requires Valid()
      modifies this
      ensures Valid() && State() == ExecOther(old(State()), quirks, Instr.SetDelayTimer(x))
    {
      delayTimer := registers.Get(x);
    }

    /** Fx18 `set_sound_timer`. */
    method SetSoundTimer(x: Nibble)
      requires Valid()
      modifies this
      ensures Valid() && State() == ExecOther(old(State()), quirks, Instr.SetSoundTimer(x))
    {
      soundTimer := registers.Get(x);
    }

    /** Fx1E `add_vx_to_i`; a sum above 0xFFFF is an overflow panic. */
    method AddVxToI(x: Nibble)
      requires Valid() && registers.i + registers.Get(x) < 0x1_0000
      modifies registers
      ensures Valid() && State() == ExecOther(old(State()), quirks, Instr.AddVxToI(x))
    {
      registers.i := registers.i + registers.Get(x);
    }

    /** Fx29 `set_i_to_sprite`; `character * 5` overflows a byte (a panic)
        for Vx above 51. */
    method SetIToSprite(x: Nibble)
      requires Valid() && registers.Get(x) as int * 5 < 0x100
      modifies registers
      ensures Valid() && State() == ExecOther(old(State()), quirks, Instr.SetIToSprite(x))
    {
      var character := registers.Get(x);
      registers.i := FONT_POINTER + character * 5;
    }

    /** Fx33 `binary_coded_decimal`: the digits of Vx at I, I+1, I+2. */
    method BinaryCodedDecimal(x: Nibble)
      requires Valid() && registers.i + 2 < MEMORY_SIZE
      modifies memory
      ensures Valid() && State() == ExecOther(old(State()), quirks, Instr.BinaryCodedDecimal(x))
    {
      var currVal := registers.Get(x);
      var binaryHundred := currVal / 100;
      memory[registers.i] := binaryHundred;
      currVal := currVal - binaryHundred * 100;
      var binaryTens := currVal / 10;
      memory[registers.i + 1] := binaryTens;
      currVal := currVal - binaryTens * 10;
      memory[registers.i + 2] := currVal;
    }

    /** Fx55 `reg_dump`: V0..Vx to memory from I on, then the memory quirk. */
    method RegDump(x: Nibble)
      requires Valid() && registers.i + x < MEMORY_SIZE
      modifies memory, registers
      ensures Valid() && State() == ExecOther(old(State()), quirks, Instr.RegDump(x))
    {
      var n := 0;
      while n <= x
        invariant 0 <= n <= x + 1
        invariant registers.i == old(registers.i) && registers.v[..] == old(registers.v[..])
        invariant forall a :: 0 <= a < MEMORY_SIZE ==>
          memory[a] == if registers.i <= a < registers.i + n then registers.v[a - registers.i] else old(memory[a])
      {
        memory[registers.i + n] := registers.Get(n);
        n := n + 1;
      }
      assert memory[..] == Load(old(memory[..]), old(registers.v[..])[..x + 1], old(registers.i));
      quirks.Memory(registers, x);
    }

    /** Fx65 `reg_load`: V0..Vx from memory from I on, then the memory quirk. */
    method RegLoad(x: Nibble)
      requires Valid() && registers.i + x < MEMORY_SIZE
      modifies registers, registers.v
      ensures Valid() && State() == ExecOther(old(State()), quirks, Instr.RegLoad(x))
    {
      var n := 0;
      while n <= x
        invariant 0 <= n <= x + 1
        invariant registers.i == old(registers.i)
        invariant forall k :: 0 <= k < 16 ==>
          registers.v[k] == if k < n then memory[registers.i + k] else old(registers.v[k])
      {
        registers.Set(n, memory[registers.i + n]);
        n := n + 1;
      }
      assert registers.v[..] == memory[old(registers.i) .. old(registers.i) + x + 1] + old(registers.v[..])[x + 1..];
      quirks.Memory(registers, x);
    }

    /** `set_key`: stores the key in the register Fx0A named and unblocks. */
    method SetKey(key: Byte)
      requires Valid()
      modifies registers.v, this`blocked
      ensures Valid() && State() == EngineSpec.SetKey(old(State()), key)
    {
      registers.Set(blockedKeyVx, key);
      blocked := false;
    }

    /** `decrement_delay_timer`. */
    method DecrementDelayTimer()
      modifies this`delayTimer
      ensures delayTimer == SaturatingDec(old(delayTimer))
    {
      delayTimer := SaturatingDec(delayTimer);
    }

    /** `decrement_sound_timer`. */
    method DecrementSoundTimer()
      modifies this`soundTimer
      ensures soundTimer == SaturatingDec(old(soundTimer))
    {
      soundTimer := SaturatingDec(soundTimer);
    }

    /** `decrement_timers`: one 60 Hz tick of both timers. */
    method DecrementTimers()
      requires Valid()
      modifies this`delayTimer, this`soundTimer
      ensures Valid() && State() == EngineSpec.DecrementTimers(old(State()))
    {
      DecrementDelayTimer();
      DecrementSoundTimer();
    }
  }
}
