/** What the instructions of chip8.rs promise, proved about the value model
    `EngineSpec`: the flag rules of the arithmetic, the subroutine stack, the
    skips, the BCD digits, the register dump and load, sprite drawing with
    its collision flag and display-wait pacing, the key wait and the timers. */
module EngineProperties {
  import opened Wrappers
  import opened BitOps
  import opened RegisterFile
  import opened QuirkPolicy
  import opened EngineSpec

  // ---------------------------------------------------------------------
  // Flags of the register arithmetic

  /** 8xy4: Vx gets the sum modulo 256 and VF the carry out of bit 7; no
      other register changes. When x is F the flag wins. */
  lemma AddYToXFlag(v: seq<Byte>, x: Nibble, y: Nibble)
    requires |v| == 16
    ensures var r := AddRegs(v, x, y);
      r[VF] == (if v[x] as int + v[y] > 255 then 1 else 0)
      && (x != VF ==> r[x] == (v[x] as int + v[y]) % 256)
      && forall k :: 0 <= k < 16 && k != x && k != VF ==> r[k] == v[k]
  {
    var res := v[x] as int + v[y];
    CarryBit(res);
    assert AddRegs(v, x, y) == v[x := AsU8(res)][VF := if res > 255 then 1 else 0];
  }

  /** Bit 8 of a sum of two bytes is the carry out of bit 7. */
  lemma CarryBit(res: int)
    requires 0 <= res <= 510
    ensures GetBitAtU16(res, 8) <==> res > 255
  {
    var carry := if res > 255 then 1 else 0;
    Pow2Values();
    DivUnique(res, 256, carry, res - 256 * carry);
  }

  /** 8xy5: Vx gets Vx - Vy modulo 256 and VF is 1 exactly when Vx > Vy
      (strictly: equal operands give VF = 0). */
  lemma SubtractYFromXFlag(v: seq<Byte>, x: Nibble, y: Nibble)
    requires |v| == 16
    ensures var r := SubRegs(v, x, y);
      r[VF] == (if v[x] > v[y] then 1 else 0)
      && (x != VF ==> r[x] == (if v[x] >= v[y] then v[x] as int - v[y] else 256 + v[x] as int - v[y]))
      && forall k :: 0 <= k < 16 && k != x && k != VF ==> r[k] == v[k]
  {
  }

  /** 8xy7: Vx gets Vy - Vx modulo 256 and VF is 1 exactly when Vy > Vx. */
  lemma SubtractXFromYFlag(v: seq<Byte>, x: Nibble, y: Nibble)
    requires |v| == 16
    ensures var r := SubnRegs(v, x, y);
      r[VF] == (if v[y] > v[x] then 1 else 0)
      && (x != VF ==> r[x] == (if v[y] >= v[x] then v[y] as int - v[x] else 256 + v[y] as int - v[x]))
      && forall k :: 0 <= k < 16 && k != x && k != VF ==> r[k] == v[k]
  {
  }

  /** 8xy6: the value shifted is Vy when the shifting quirk is off and Vx when
      it is on; Vx gets half of it and VF the bit shifted out. */
  lemma ShiftRightFlag(q: Quirks, v: seq<Byte>, x: Nibble, y: Nibble)
    requires |v| == 16
    ensures var src := if q.shifting then v[x] else v[y];
      var r := ShrRegs(q, v, x, y);
      r[VF] == src % 2
      && (x != VF ==> r[x] == src / 2)
      && forall k :: 0 <= k < 16 && k != x && k != VF ==> r[k] == v[k]
  {
    var src := if q.shifting then v[x] else v[y];
    var s := AfterShifting(q, v, x, y);
    assert s[x] == src;
    LowBit(src);
    RshIsByte(src, 1);
    assert ShrRegs(q, v, x, y) == s[x := src / 2][VF := src % 2];
  }

  /** Bit 0 of a byte is its parity. */
  lemma LowBit(b: Byte)
    ensures GetBitAtU8(b, 0) <==> b % 2 == 1
  {
    assert Pow2(0) == 1;
    DivUnique(b, 1, b, 0);
  }

  /** 8xyE: Vx gets twice the shifted value modulo 256, and VF is bit 7 of
      that result, which is bit 6 of the value shifted (not the bit shifted
      out). */
  lemma ShiftLeftFlag(q: Quirks, v: seq<Byte>, x: Nibble, y: Nibble)
    requires |v| == 16
    ensures var src := if q.shifting then v[x] else v[y];
      var r := ShlRegs(q, v, x, y);
      r[VF] == (src / 64) % 2
      && (x != VF ==> r[x] == (2 * src as int) % 256)
      && forall k :: 0 <= k < 16 && k != x && k != VF ==> r[k] == v[k]
  {
    var src := if q.shifting then v[x] else v[y];
    assert AfterShifting(q, v, x, y)[x] == src;
    ShlFlagValue(src);
  }

  lemma ShlFlagValue(src: Byte)
    ensures Shl(src, 1, 8) == (2 * src as int) % 256
    ensures GetBitAtU8(Shl(src, 1, 8), 7) <==> (src / 64) % 2 == 1
  {
    ShlIsByte(src, 1);
    Pow2Values();
    BitSixAfterDoubling(src);
  }

  lemma BitSixAfterDoubling(src: Byte)
    ensures (((2 * src as int) % 256) / 128) % 2 == (src / 64) % 2
  {
    var a, b, c := src / 128, (src / 64) % 2, src % 64;
    assert src == 128 * a + 64 * b + c;
    DivUnique(2 * src, 256, a, 128 * b + 2 * c);
    DivUnique(128 * b + 2 * c, 128, b, 2 * c);
  }

  /** 8xy1/8xy2/8xy3 with the VF-reset quirk on: VF ends up 0 whatever the
      operands, Vx (unless it is VF) holds the bitwise result, and nothing
      else changes. */
  lemma LogicOpsResetFlag(m: Machine, q: Quirks, op: Instr, key: Option<Byte>, rnd: Byte)
    requires m.Valid() && q.vfReset
    requires op.SetXToYOr? || op.SetXToYAnd? || op.SetXToYXor?
    ensures var r := Exec(m, q, op, key, rnd).value;
      var a, b := m.v[op.x], m.v[op.y];
      r.v[VF] == 0
      && (op.x != VF ==> forall n: nat ::
            Bit(r.v[op.x], n) <==> (if op.SetXToYOr? then Bit(a, n) || Bit(b, n)
                                    else if op.SetXToYAnd? then Bit(a, n) && Bit(b, n)
                                    else Bit(a, n) != Bit(b, n)))
      && r == m.(v := r.v)
      && forall k :: 0 <= k < 16 && k != op.x && k != VF ==> r.v[k] == m.v[k]
  {
  }

  /** 8xy1/8xy2/8xy3 with the VF-reset quirk off: Vx holds the bitwise result
      and every other register, VF included, keeps its value. */
  lemma LogicOpsKeepFlag(m: Machine, q: Quirks, op: Instr, key: Option<Byte>, rnd: Byte)
    requires m.Valid() && !q.vfReset
    requires op.SetXToYOr? || op.SetXToYAnd? || op.SetXToYXor?
    ensures var r := Exec(m, q, op, key, rnd).value;
      var a, b := m.v[op.x], m.v[op.y];
      (forall n: nat ::
         Bit(r.v[op.x], n) <==> (if op.SetXToYOr? then Bit(a, n) || Bit(b, n)
                                 else if op.SetXToYAnd? then Bit(a, n) && Bit(b, n)
                                 else Bit(a, n) != Bit(b, n)))
      && r == m.(v := r.v)
      && forall k :: 0 <= k < 16 && k != op.x ==> r.v[k] == m.v[k]
  {
  }

  /** 7xkk adds the constant modulo 256 and, unlike 8xy4, leaves VF alone. */
  lemma AddValueKeepsFlag(m: Machine, q: Quirks, x: Nibble, n1: Nibble, n2: Nibble, key: Option<Byte>, rnd: Byte)
    requires m.Valid()
    ensures var r := Exec(m, q, AddValueToRegister(x, n1, n2), key, rnd).value;
      r.v[x] == (m.v[x] + 16 * n1 + n2) % 256
      && r == m.(v := r.v)
      && forall k :: 0 <= k < 16 && k != x ==> r.v[k] == m.v[k]
  {
    ExecArithmeticGroup(m, q, AddValueToRegister(x, n1, n2), key, rnd);
    AddValueStep(m, q, x, n1, n2, rnd);
  }

  /** The arithmetic step of 7xkk, unfolded once. */
  lemma AddValueStep(m: Machine, q: Quirks, x: Nibble, n1: Nibble, n2: Nibble, rnd: Byte)
    requires m.Valid()
    ensures ExecArithmetic(m, q, AddValueToRegister(x, n1, n2), rnd)
      == m.(v := m.v[x := (m.v[x] + 16 * n1 + n2) % 256])
  {
    assert ToU8(n1, n2) == 16 * n1 + n2;
  }

  /** Cxkk: the random byte is masked by the constant, so the result has no
      bit the constant lacks and never exceeds it. */
  lemma RandomMaskedByConstant(m: Machine, q: Quirks, x: Nibble, n1: Nibble, n2: Nibble, key: Option<Byte>, rnd: Byte)
    requires m.Valid()
    ensures var r := Exec(m, q, SetVxToRandAndNn(x, n1, n2), key, rnd).value;
      (forall n: nat :: Bit(r.v[x], n) ==> Bit(16 * n1 + n2, n))
      && r.v[x] <= 16 * n1 + n2
      && r == m.(v := r.v)
      && forall k :: 0 <= k < 16 && k != x ==> r.v[k] == m.v[k]
  {
    ExecArithmeticGroup(m, q, SetVxToRandAndNn(x, n1, n2), key, rnd);
    RandomStep(m, q, x, n1, n2, rnd);
  }

  /** The arithmetic step of Cxkk, unfolded once. */
  lemma RandomStep(m: Machine, q: Quirks, x: Nibble, n1: Nibble, n2: Nibble, rnd: Byte)
    requires m.Valid()
    ensures ExecArithmetic(m, q, SetVxToRandAndNn(x, n1, n2), rnd)
      == m.(v := m.v[x := And8(rnd, 16 * n1 + n2)])
  {
    assert ToU8(n1, n2) == 16 * n1 + n2;
  }

  // ---------------------------------------------------------------------
  // Control flow

  /** A call followed by a return resumes where the call left off, with the
      stack as it was: the stack is last in, first out. */
  lemma CallThenReturn(m: Machine, q: Quirks, n1: Nibble, n2: Nibble, n3: Nibble, key: Option<Byte>, rnd: Byte)
    requires m.Valid()
    ensures var called := Exec(m, q, Call(n1, n2, n3), key, rnd).value;
      called.pc == 256 * n1 + 16 * n2 + n3
      && called.stack == [m.pc] + m.stack
      && Exec(called, q, ReturnSub, key, rnd) == Success(m)
  {
  }

  /** Bnnn jumps to nnn plus V0, or plus V`n1` under the jumping quirk. */
  lemma JumpWithOffset(m: Machine, q: Quirks, n1: Nibble, n2: Nibble, n3: Nibble, key: Option<Byte>, rnd: Byte)
    requires m.Valid()
    ensures var r := Exec(m, q, JumpPlusV0(n1, n2, n3), key, rnd).value;
      r == m.(pc := r.pc)
      && r.pc == 256 * n1 + 16 * n2 + n3 + (if q.jumping then m.v[n1] else m.v[0])
  {
  }

  /** Fetching then running a skip moves `pc` past the skip, and past one
      more instruction exactly when the skip's condition holds. */
  lemma {:induction false} SkipSkipsNextInstruction(m: Machine, q: Quirks, key: Option<Byte>, rnd: Byte)
    requires m.Valid() && m.pc + 1 < MEMORY_SIZE
    requires var hex := Fetch(m).0; Decode(hex).Success? && IsSkip(Decode(hex).value)
    ensures var (hex, fetched) := Fetch(m);
      var op := Decode(hex).value;
      var r := HandleOpCode(fetched, q, hex, key, rnd);
      r.Success? && r.value == m.(pc := m.pc + (if SkipTaken(fetched, op, key) then 4 else 2))
  {
    var (hex, fetched) := Fetch(m);
    var op := Decode(hex).value;
    assert CanExecute(fetched, q, op, key);
    SkipStep(fetched, q, op, key, rnd);
  }

  /** A skip leaves everything but the program counter alone. */
  lemma SkipStep(m: Machine, q: Quirks, op: Instr, key: Option<Byte>, rnd: Byte)
    requires m.Valid() && IsSkip(op) && CanExecute(m, q, op, key)
    ensures Exec(m, q, op, key, rnd) == Success(if SkipTaken(m, op, key) then m.(pc := m.pc + 2) else m)
  {
    assert IsControl(op);
  }

  /** For a given key state exactly one of Ex9E and ExA1 skips. */
  lemma KeySkipsAreComplementary(m: Machine, x: Nibble, key: Option<Byte>)
    requires m.Valid()
    ensures SkipTaken(m, SkipIfPressed(x), key) != SkipTaken(m, SkipIfNotPressed(x), key)
  {
  }

  /** With no key held down, Ex9E never skips and ExA1 always does. */
  lemma NoKeyHeld(m: Machine, x: Nibble)
    requires m.Valid()
    ensures !SkipTaken(m, SkipIfPressed(x), None) && SkipTaken(m, SkipIfNotPressed(x), None)
  {
  }

  // ---------------------------------------------------------------------
  // Memory instructions

  /** Fx33 writes the hundreds, tens and units of Vx at I, I+1 and I+2 and
      changes nothing else. */
  lemma BcdStoresDigits(m: Machine, x: Nibble)
    requires m.Valid() && m.i + 2 < MEMORY_SIZE
    ensures var r := StoreBcd(m, x);
      r.memory[m.i] == m.v[x] / 100
      && r.memory[m.i + 1] == (m.v[x] / 10) % 10
      && r.memory[m.i + 2] == m.v[x] % 10
      && 100 * r.memory[m.i] + 10 * r.memory[m.i + 1] + r.memory[m.i + 2] == m.v[x]
      && r == m.(memory := r.memory)
      && forall a :: 0 <= a < MEMORY_SIZE && !(m.i <= a <= m.i + 2) ==> r.memory[a] == m.memory[a]
  {
  }

  /** Fx55 stores V0..Vx at I..I+x, leaves the rest of memory alone, and
      advances I by x + 1 only under the memory quirk, after the copy. */
  lemma DumpRegistersEffect(m: Machine, q: Quirks, x: Nibble)
    requires m.Valid() && m.i + x < MEMORY_SIZE
    ensures var r := DumpRegisters(m, q, x);
      (forall k :: 0 <= k <= x ==> r.memory[m.i + k] == m.v[k])
      && (forall a :: 0 <= a < MEMORY_SIZE && !(m.i <= a <= m.i + x) ==> r.memory[a] == m.memory[a])
      && r.i == (if q.memory then m.i + x + 1 else m.i)
      && r == m.(memory := r.memory, i := r.i)
  {
  }

  /** Fx65 loads V0..Vx from I..I+x and keeps the higher registers. */
  lemma LoadRegistersEffect(m: Machine, q: Quirks, x: Nibble)
    requires m.Valid() && m.i + x < MEMORY_SIZE
    ensures var r := LoadRegisters(m, q, x);
      (forall k :: 0 <= k <= x ==> r.v[k] == m.memory[m.i + k])
      && (forall k :: x < k < 16 ==> r.v[k] == m.v[k])
      && r.i == (if q.memory then m.i + x + 1 else m.i)
      && r == m.(v := r.v, i := r.i)
  {
  }

  /** Dumping V0..Vx and loading them back from the same address gives the
      registers back unchanged. */
  lemma {:induction false} DumpThenLoadRestores(m: Machine, q: Quirks, x: Nibble)
    requires m.Valid() && m.i + x < MEMORY_SIZE
    ensures var dumped := DumpRegisters(m, q, x);
      LoadRegisters(dumped.(i := m.i), q, x).v == m.v
  {
    var dumped := DumpRegisters(m, q, x);
    var loaded := LoadRegisters(dumped.(i := m.i), q, x);
    DumpRegistersEffect(m, q, x);
    LoadRegistersEffect(dumped.(i := m.i), q, x);
    assert |loaded.v| == |m.v|;
    forall k | 0 <= k < 16
      ensures loaded.v[k] == m.v[k]
    {
      if k <= x {
        assert loaded.v[k] == dumped.memory[m.i + k];
      }
    }
  }

  /** Fx29 points I at the font glyph of the digit in Vx: while the font is
      in place, the five bytes there are that digit's sprite. */
  lemma SpriteAddressPointsAtGlyph(m: Machine, q: Quirks, x: Nibble, key: Option<Byte>, rnd: Byte)
    requires m.Valid() && m.v[x] < 16
    requires m.memory[..|FONT|] == FONT
    ensures var r := Exec(m, q, SetIToSprite(x), key, rnd).value;
      r.i == 5 * m.v[x]
      && r.memory[r.i .. r.i + 5] == FONT[5 * m.v[x] .. 5 * m.v[x] + 5]
      && r == m.(i := r.i)
  {
    var r := Exec(m, q, SetIToSprite(x), key, rnd).value;
    assert r.memory[..|FONT|] == FONT;
    assert r.memory[r.i .. r.i + 5] == r.memory[..|FONT|][r.i .. r.i + 5];
  }

  /** Fx1E adds Vx to I and touches nothing else (VF included). */
  lemma AddVxToIEffect(m: Machine, q: Quirks, x: Nibble, key: Option<Byte>, rnd: Byte)
    requires m.Valid() && m.i + m.v[x] < 0x1_0000
    ensures Exec(m, q, AddVxToI(x), key, rnd) == Success(m.(i := m.i + m.v[x]))
  {
  }

  // ---------------------------------------------------------------------
  // Drawing

  /** XOR-ing the same sprite at the same place twice restores the screen. */
  lemma {:induction false} BlitInvolution(s: Screen, sprite: seq<Byte>, ox: nat, oy: nat)
    requires ScreenShaped(s)
    ensures Blit(Blit(s, sprite, ox, oy), sprite, ox, oy) == s
  {
    var r := Blit(Blit(s, sprite, ox, oy), sprite, ox, oy);
    ScreensEqual(r, s);
  }

  /** The collision flag means exactly that some pixel lit before the draw
      is dark after it. */
  lemma {:induction false} CollisionMeansErased(s: Screen, sprite: seq<Byte>, ox: nat, oy: nat)
    requires ScreenShaped(s)
    ensures var r := Blit(s, sprite, ox, oy);
      Collision(s, sprite, ox, oy) <==>
      exists y, x :: 0 <= y < CH8_HEIGHT && 0 <= x < CH8_WIDTH && s[y][x] && !r[y][x]
  {
    var r := Blit(s, sprite, ox, oy);
    if Collision(s, sprite, ox, oy) {
      var y, x :| 0 <= y < CH8_HEIGHT && 0 <= x < CH8_WIDTH && Hit(sprite, ox, oy, y, x) && s[y][x];
      assert s[y][x] && !r[y][x];
    }
    if exists y, x :: 0 <= y < CH8_HEIGHT && 0 <= x < CH8_WIDTH && s[y][x] && !r[y][x] {
      var y, x :| 0 <= y < CH8_HEIGHT && 0 <= x < CH8_WIDTH && s[y][x] && !r[y][x];
      assert Hit(sprite, ox, oy, y, x);
    }
  }

  /** Drawing changes no pixel left of or above the sprite's origin: pixels
      past the right and bottom edges are clipped, never wrapped around. */
  lemma DrawClipsWithoutWrapping(s: Screen, sprite: seq<Byte>, ox: nat, oy: nat)
    requires ScreenShaped(s)
    ensures var r := Blit(s, sprite, ox, oy);
      forall y, x :: 0 <= y < CH8_HEIGHT && 0 <= x < CH8_WIDTH && (y < oy || x < ox) ==> r[y][x] == s[y][x]
  {
  }

  /** On a blank screen a sprite never collides, and drawing it a second time
      collides exactly when some of it is visible. */
  lemma {:induction false} RedrawOnBlankCollides(sprite: seq<Byte>, ox: nat, oy: nat)
    ensures !Collision(BlankScreen(), sprite, ox, oy)
    ensures Collision(Blit(BlankScreen(), sprite, ox, oy), sprite, ox, oy) <==> Touches(sprite, ox, oy)
  {
    var s := BlankScreen();
    var r := Blit(s, sprite, ox, oy);
    if Touches(sprite, ox, oy) {
      var y, x :| 0 <= y < CH8_HEIGHT && 0 <= x < CH8_WIDTH && Hit(sprite, ox, oy, y, x);
      assert r[y][x];
    }
  }

  /** With display wait on, the first draw of a frame draws and moves the
      handshake to `WaitForDraw`. */
  lemma FirstDrawOfFrameDraws(m: Machine, q: Quirks, x: Nibble, y: Nibble, n: Nibble, key: Option<Byte>, rnd: Byte)
    requires m.Valid() && q.displayWait && m.vblank == Free
    requires n == 0 || m.i + n <= MEMORY_SIZE
    ensures Exec(m, q, Draw(x, y, n), key, rnd) == Success(DrawSprite(m.(vblank := WaitForDraw), x, y, n))
  {
  }

  /** With display wait on, a later draw in the same frame changes neither
      the screen nor VF: it steps `pc` back by one instruction, onto the
      draw just fetched, so that it is fetched again, and the handshake
      waits for the next interrupt. */
  lemma LaterDrawInFrameWaits(m: Machine, q: Quirks, hex: Word, x: Nibble, y: Nibble, n: Nibble, key: Option<Byte>, rnd: Byte)
    requires m.Valid() && q.displayWait && m.vblank != Free && m.pc >= 2
    requires Decode(hex) == Success(Draw(x, y, n))
    ensures HandleOpCode(m, q, hex, key, rnd) == Success(m.(vblank := WaitForInterrupt, pc := m.pc - 2))
  {
    assert q.DisplayWait(m.vblank) == (true, WaitForInterrupt);
    assert ExecOther(m, q, Draw(x, y, n)) == m.(vblank := WaitForInterrupt, pc := m.pc - 2);
  }

  // ---------------------------------------------------------------------
  // Keys and timers

  /** Fx0A blocks the machine; the key then delivered by `set_key` lands in
      Vx and unblocks it, and nothing else has changed. */
  lemma GetKeyThenSetKey(m: Machine, q: Quirks, x: Nibble, key: Option<Byte>, rnd: Byte, pressed: Byte)
    requires m.Valid()
    ensures var waiting := Exec(m, q, GetKey(x), key, rnd).value;
      waiting.blocked
      && SetKey(waiting, pressed) == m.(v := m.v[x := pressed], blockedKeyVx := x, blocked := false)
  {
  }

  /** `n` ticks of `decrement_timers`. */
  function Ticks(m: Machine, n: nat): Machine
    decreases n
  {
    if n == 0 then m else Ticks(DecrementTimers(m), n - 1)
  }

  /** After `n` ticks each timer has gone down by `n`, stopping at zero, and
      nothing else has changed. */
  lemma {:induction false} TimersCountDownToZero(m: Machine, n: nat)
    ensures var r := Ticks(m, n);
      r.delayTimer == (if m.delayTimer >= n then m.delayTimer - n else 0)
      && r.soundTimer == (if m.soundTimer >= n then m.soundTimer - n else 0)
      && r == m.(delayTimer := r.delayTimer, soundTimer := r.soundTimer)
    decreases n
  {
    if n > 0 {
      TimersCountDownToZero(DecrementTimers(m), n - 1);
    }
  }
}
