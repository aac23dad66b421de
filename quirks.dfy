/** The behavioural switches of quirks.rs, which choose between the variants
    of a few instructions that CHIP-8 interpreters disagree on, and the
    vertical-blank handshake that paces sprite drawing to the display. */
module QuirkPolicy {
  import opened BitOps
  import opened RegisterFile

  /** The drawing handshake with the display interrupt (declared in chip8.rs):
      `Free` lets one draw through, `WaitForDraw` has let it through, and
      `WaitForInterrupt` holds every further draw until the runner sets the
      state back to `Free` at the next 60 Hz tick. */
  datatype VBlank = WaitForDraw | WaitForInterrupt | Free

  /** Register values after the VF-reset quirk: VF cleared when it is on. */
  function AfterVfReset(q: Quirks, v: seq<Byte>): (r: seq<Byte>)
    requires |v| == 16
    ensures |r| == 16 && forall k :: 0 <= k < 16 && k != VF ==> r[k] == v[k]
    ensures r[VF] == 0 || !q.vfReset
    ensures !q.vfReset ==> r == v
  {
    if q.vfReset then v[VF := 0] else v
  }

  /** `I` after the memory quirk of Fx55/Fx65 with register bound `x`. */
  function AfterMemory(q: Quirks, i: Word, x: Word): (r: int)
    ensures i <= r && (r == i <==> !q.memory)
    ensures q.memory ==> r == i + x + 1
  {
    if q.memory then i + x + 1 else i
  }

  /** Register values after the shifting quirk: with the quirk off, Vx first
      takes the value of Vy (the original COSMAC behaviour). */
  function AfterShifting(q: Quirks, v: seq<Byte>, x: Byte, y: Byte): (r: seq<Byte>)
    requires |v| == 16 && x < 16 && y < 16
    ensures |r| == 16 && forall k :: 0 <= k < 16 && k != x ==> r[k] == v[k]
    ensures r[x] == if q.shifting then v[x] else v[y]
  {
    if !q.shifting then v[x := v[y]] else v
  }

  datatype Quirks = Quirks(vfReset: bool, memory: bool, shifting: bool, jumping: bool, displayWait: bool)
  {
    /** `vf_reset`: 8xy1/8xy2/8xy3 clear VF afterwards when the quirk is on. */
    method VfReset(registers: Registers)
      requires registers.Valid()
      modifies registers.v
      ensures registers.v[..] == AfterVfReset(this, old(registers.v[..]))
      ensures registers.i == old(registers.i)
    {
      if vfReset {
        registers.SetVf(0);
      }
    }

    /** `memory`: Fx55/Fx65 advance `I` past the registers copied when the
        quirk is on; a sum above 0xFFFF is a Rust overflow panic. */
    method Memory(registers: Registers, x: Word)
      requires registers.Valid()
      requires AfterMemory(this, registers.i, x) < 0x1_0000
      modifies registers`i
      ensures registers.i == AfterMemory(this, old(registers.i), x)
    {
      if memory {
        registers.i := registers.i + x + 1;
      }
    }

    /** `shifting`: with the quirk off, 8xy6/8xyE shift Vy's value rather
        than Vx's own. */
    method Shifting(registers: Registers, x: Byte, y: Byte)
      requires registers.Valid() && x < 16 && y < 16
      modifies registers.v
      ensures registers.v[..] == AfterShifting(this, old(registers.v[..]), x, y)
      ensures registers.i == old(registers.i)
    {
      if !shifting {
        registers.Set(x, registers.Get(y));
      }
    }

    /** `jumping`: the register Bnnn adds to its address, V0 normally and
        V`n1` (the first nibble of the address) when the quirk is on. The
        Rust method borrows the register file mutably but only reads it. */
    function Jumping(v: seq<Byte>, n: Byte): Byte
      requires |v| == 16 && n < 16
    {
      if jumping then v[n] else v[0]
    }

    /** `display_wait`: whether a draw must wait (and be retried), and the
        handshake state afterwards. */
    function DisplayWait(vblank: VBlank): (r: (bool, VBlank))
      ensures !displayWait ==> r == (false, vblank)
      ensures displayWait ==> (r.0 <==> vblank != Free) && r.1 != Free
    {
      if !displayWait then (false, vblank)
      else match vblank
        case WaitForDraw => (true, WaitForInterrupt)
        case WaitForInterrupt => (true, WaitForInterrupt)
        case Free => (false, WaitForDraw)
    }
  }

  /** The quirk set `Config::default` uses. */
  const CH8_QUIRKS: Quirks := Quirks(true, true, false, false, true)

  /** The answers of `n` consecutive `display_wait` calls made without the
      runner resetting the handshake in between, and the final state. */
  function DisplayWaitRun(q: Quirks, vblank: VBlank, n: nat): (r: (seq<bool>, VBlank))
    ensures |r.0| == n
    decreases n
  {
    if n == 0 then ([], vblank)
    else
      var (wait, next) := q.DisplayWait(vblank);
      var (rest, last) := DisplayWaitRun(q, next, n - 1);
      ([wait] + rest, last)
  }

  /** With the quirk on, at most one draw per frame gets through: among any
      run of calls between two resets, no two are allowed to proceed, none is
      once the handshake has left `Free`, and after two calls (or from
      `WaitForInterrupt`) every later draw waits. */
  lemma {:induction false} AtMostOneDrawPerFrame(q: Quirks, vblank: VBlank, n: nat)
    requires q.displayWait
    ensures var r := DisplayWaitRun(q, vblank, n);
      (forall a, b :: 0 <= a < b < n ==> r.0[a] || r.0[b])
      && (vblank != Free ==> forall a :: 0 <= a < n ==> r.0[a])
      && (vblank == Free && n >= 1 ==> !r.0[0])
      && (vblank == WaitForInterrupt || n >= 2 ==> r.1 == WaitForInterrupt)
    decreases n
  {
    if n > 0 {
      var (wait, next) := q.DisplayWait(vblank);
      AtMostOneDrawPerFrame(q, next, n - 1);
      var rest := DisplayWaitRun(q, next, n - 1).0;
      assert DisplayWaitRun(q, vblank, n).0 == [wait] + rest;
      assert next != Free;
    }
  }

  /** With the quirk off, no draw ever waits and the handshake is untouched. */
  lemma {:induction false} NoDisplayWaitNeverWaits(q: Quirks, vblank: VBlank, n: nat)
    requires !q.displayWait
    ensures var r := DisplayWaitRun(q, vblank, n);
      (forall a :: 0 <= a < n ==> !r.0[a]) && r.1 == vblank
    decreases n
  {
    if n > 0 {
      NoDisplayWaitNeverWaits(q, vblank, n - 1);
      assert DisplayWaitRun(q, vblank, n).0 == [false] + DisplayWaitRun(q, vblank, n - 1).0;
    }
  }
}
