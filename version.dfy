/** version.rs: the original CHIP-8 variant's handling of VF and `I`, an
    unconditional form of the VF-reset and memory quirks. */
module Version {
  import opened BitOps
  import opened RegisterFile
  import opened QuirkPolicy

  datatype Chip8Ver = Chip8Ver
  {
    /** `handle_vf`: VF becomes 0 and nothing else changes; this is the
        VF-reset quirk with the quirk switched on. */
    method HandleVf(registers: Registers)
      requires registers.Valid()
      modifies registers.v
      ensures registers.v[..] == old(registers.v[..])[VF := 0]
      ensures registers.v[..] == AfterVfReset(CH8_QUIRKS, old(registers.v[..]))
      ensures registers.i == old(registers.i)
    {
      registers.SetVf(0);
    }

    /** `handle_i`: `I` advances by `x + 1`; a sum above 0xFFFF is a Rust
        overflow panic. This is the memory quirk with the quirk switched on. */
    method HandleI(registers: Registers, x: Word)
      requires registers.Valid() && registers.i + x + 1 < 0x1_0000
      modifies registers`i
      ensures registers.i == old(registers.i) + x + 1
      ensures registers.i == AfterMemory(CH8_QUIRKS, old(registers.i), x)
    {
      registers.i := registers.i + x + 1;
    }
  }

  /** Clearing VF twice leaves the registers as clearing it once does. */
  lemma HandleVfIdempotent(before: seq<Byte>)
    requires |before| == 16
    ensures AfterVfReset(CH8_QUIRKS, AfterVfReset(CH8_QUIRKS, before)) == AfterVfReset(CH8_QUIRKS, before)
  {
  }
}
