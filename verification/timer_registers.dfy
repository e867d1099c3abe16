/**
  The CMSDK timer's register block (example-code/qemu-common/src/cmsdk_timer/registers.rs):
  its `#[repr(C)]` layout and the bit layouts of its `Control` and
  `Interrupt` registers.
*/
module TimerRegisters {
  import opened Wrappers
  import opened Bits
  import opened MmioLayout

  /** The fields of `Registers`, in declaration order. */
  datatype Reg =
    | Control | Value | Reload | Interrupt | Reserved
    | PeripheralId4 | PeripheralId5 | PeripheralId6 | PeripheralId7
    | PeripheralId0 | PeripheralId1 | PeripheralId2 | PeripheralId3
    | ComponentId0 | ComponentId1 | ComponentId2 | ComponentId3

  /** The component identification words at the top of the block. */
  const ComponentIdRegisters: Layout<Reg> :=
    Field(ComponentId0, 1, Field(ComponentId1, 1, Field(ComponentId2, 1, Field(ComponentId3, 1, End))))

  /** The peripheral identification words, followed by the component identification words. */
  const IdRegisters: Layout<Reg> :=
    Field(PeripheralId4, 1, Field(PeripheralId5, 1, Field(PeripheralId6, 1, Field(PeripheralId7, 1,
    Field(PeripheralId0, 1, Field(PeripheralId1, 1, Field(PeripheralId2, 1, Field(PeripheralId3, 1, ComponentIdRegisters))))))))

  /** `Registers`: four working registers, `[u32; 0x3F0]` reserved, then the identification words. */
  const Registers: Layout<Reg> :=
    Field(Control, 1, Field(Value, 1, Field(Reload, 1, Field(Interrupt, 1, Field(Reserved, 0x3F0, IdRegisters)))))

  lemma ComponentIdLocalOffsets()
    ensures Size(ComponentIdRegisters) == 0x10
    ensures OffsetOf(ComponentIdRegisters, ComponentId0) == Some(0x0)
    ensures OffsetOf(ComponentIdRegisters, ComponentId3) == Some(0xC)
  {
  }

  lemma PeripheralIdLocalOffsets()
    ensures OffsetOf(IdRegisters, PeripheralId4) == Some(0x00)
    ensures OffsetOf(IdRegisters, PeripheralId7) == Some(0x0C)
    ensures OffsetOf(IdRegisters, PeripheralId0) == Some(0x10)
    ensures OffsetOf(IdRegisters, PeripheralId3) == Some(0x1C)
  {
  }

  lemma IdLocalOffsets()
    ensures Size(IdRegisters) == 0x30
    ensures OffsetOf(IdRegisters, ComponentId0) == Some(0x20)
    ensures OffsetOf(IdRegisters, ComponentId3) == Some(0x2C)
  {
    ComponentIdLocalOffsets();
  }

  /** Where `derive_mmio` finds the four working registers. */
  lemma RegisterOffsets()
    ensures OffsetOf(Registers, Control) == Some(0x000)
    ensures OffsetOf(Registers, Value) == Some(0x004)
    ensures OffsetOf(Registers, Reload) == Some(0x008)
    ensures OffsetOf(Registers, Interrupt) == Some(0x00C)
  {
  }

  /** Where the peripheral identification registers sit. */
  lemma PeripheralIdOffsets()
    ensures OffsetOf(Registers, PeripheralId4) == Some(0xFD0)
    ensures OffsetOf(Registers, PeripheralId7) == Some(0xFDC)
    ensures OffsetOf(Registers, PeripheralId0) == Some(0xFE0)
    ensures OffsetOf(Registers, PeripheralId3) == Some(0xFEC)
  {
    PeripheralIdLocalOffsets();
  }

  /** Where the component identification registers sit, and the size of the 4 KiB block. */
  lemma ComponentIdOffsets()
    ensures OffsetOf(Registers, ComponentId0) == Some(0xFF0)
    ensures OffsetOf(Registers, ComponentId3) == Some(0xFFC)
    ensures Size(Registers) == 0x1000
  {
    IdLocalOffsets();
  }

  /** The fields of the `Control` bitfield. */
  datatype ControlField = Enable | ExternalInputAsEnable | ExternalInputAsClock | InterruptEnable

  /** The bit each `Control` field occupies (`#[bit(n, rw)]`). */
  function ControlBit(f: ControlField): nat {
    match f
    case Enable => 0
    case ExternalInputAsEnable => 1
    case ExternalInputAsClock => 2
    case InterruptEnable => 3
  }

  /**
    The `Control` fields are distinct single bits: setting one field gives
    back the value set and leaves every other field as it was.
  */
  lemma ControlFieldsIndependent(raw: Word, f: ControlField, b: bool, g: ControlField)
    ensures Test(With(raw, ControlBit(f), b), ControlBit(g)) == if f == g then b else Test(raw, ControlBit(g))
  {
    if f != g {
      WithOthers(raw, ControlBit(f), b, ControlBit(g));
    }
  }

  /** `interrupt_bit`, bit 0 of `Interrupt`. */
  const InterruptBit: nat := 0

  /** `Interrupt`'s default value, which its builder starts from: all bits clear. */
  const InterruptDefault: Word := {}

  /** `Interrupt::builder().with_interrupt_bit(b).build()`. */
  function InterruptValue(b: bool): (r: Word)
    ensures Test(r, InterruptBit) == b
    ensures r - {InterruptBit} == {}
  {
    With(InterruptDefault, InterruptBit, b)
  }

  /**
    The interrupt flag register after `written` is stored to `Interrupt`:
    `interrupt_bit` is write-1-to-clear, and no other bit is defined.
  */
  function AfterInterruptWrite(flags: Word, written: Word): (r: Word)
    ensures Test(r, InterruptBit) == (Test(flags, InterruptBit) && !Test(written, InterruptBit))
    ensures r - {InterruptBit} == flags - {InterruptBit}
  {
    if Test(written, InterruptBit) then flags - {InterruptBit} else flags
  }

  /**
    The value `clear_interrupt` stores is raw 1 and clears the flag; storing
    the default value leaves the flag alone.
  */
  lemma ClearingWrite(flags: Word)
    ensures Raw(InterruptValue(true)) == 1
    ensures !Test(AfterInterruptWrite(flags, InterruptValue(true)), InterruptBit)
    ensures AfterInterruptWrite(flags, InterruptValue(false)) == flags
  {
    RawLow(InterruptValue(true), 1);
  }
}
