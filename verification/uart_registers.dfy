/**
  The CMSDK UART's registers: the bit layouts of `Status`, `Control` and
  `IntStatus` (example-code/qemu-common/src/cmsdk_uart/registers.rs), the
  register map the driver documents for them
  (example-code/qemu-common/src/cmsdk_uart/mod.rs), and the `#[repr(C)]`
  register block the basic driver maps
  (example-code/qemu-common/src/cmsdk_uart/basic.rs).
*/
module UartRegisters {
  import opened Wrappers
  import opened Bits
  import opened MmioLayout

  /** The fields of the basic driver's `Registers`, in declaration order. */
  datatype Reg = Data | Status | Control | IntStatus | Reserved | Pid | Reserved2 | Cid

  /** `Registers`: four working registers, `[u32; 1012]` reserved, `pid: [u32; 2]`, `[u32; 2]` reserved, `cid: [u32; 4]`. */
  const Registers: Layout<Reg> :=
    Field(Data, 1, Field(Status, 1, Field(Control, 1, Field(IntStatus, 1,
    Field(Reserved, 1012, Field(Pid, 2, Field(Reserved2, 2, Field(Cid, 4, End))))))))

  /** Where `derive_mmio` finds each register, and the size of the 4 KiB block. */
  lemma RegisterOffsets()
    ensures OffsetOf(Registers, Data) == Some(0x000)
    ensures OffsetOf(Registers, Status) == Some(0x004)
    ensures OffsetOf(Registers, Control) == Some(0x008)
    ensures OffsetOf(Registers, IntStatus) == Some(0x00C)
    ensures OffsetOf(Registers, Pid) == Some(0xFE0)
    ensures OffsetOf(Registers, Cid) == Some(0xFF0)
    ensures Size(Registers) == 0x1000
  {
  }

  /** The fields of the `Status` bitfield: TX full, RX full, TX overflow, RX overflow. */
  datatype StatusField = Txf | Rxf | Txo | Rxo

  /** The fields of the `Control` bitfield: TX/RX enable, TX/RX interrupt enable, TX/RX overflow interrupt enable. */
  datatype ControlField = Txe | Rxe | Txie | Rxie | Txoie | Rxoie

  /** The fields of the `IntStatus` bitfield: TX/RX interrupt, TX/RX overflow interrupt. */
  datatype IntStatusField = Txi | Rxi | Txoi | Rxoi

  /** The bit each field occupies (`#[bit(n, rw)]`). */
  function StatusBit(f: StatusField): nat {
    match f
    case Txf => 0
    case Rxf => 1
    case Txo => 2
    case Rxo => 3
  }

  function ControlBit(f: ControlField): nat {
    match f
    case Txe => 0
    case Rxe => 1
    case Txie => 2
    case Rxie => 3
    case Txoie => 4
    case Rxoie => 5
  }

  function IntStatusBit(f: IntStatusField): nat {
    match f
    case Txi => 0
    case Rxi => 1
    case Txoi => 2
    case Rxoi => 3
  }

  /** The register map in the driver's module documentation, by its own names for the bits. */
  function DocumentedStatusBit(name: string): Option<nat> {
    if name == "TXBF" then Some(0)
    else if name == "RXBF" then Some(1)
    else if name == "TXOV" then Some(2)
    else if name == "RXOV" then Some(3)
    else None
  }

  function DocumentedControlBit(name: string): Option<nat> {
    if name == "TXE" then Some(0)
    else if name == "RXE" then Some(1)
    else if name == "TXIE" then Some(2)
    else if name == "RXIE" then Some(3)
    else if name == "TXOE" then Some(4)
    else if name == "RXOE" then Some(5)
    else None
  }

  function DocumentedIntStatusBit(name: string): Option<nat> {
    if name == "TXI" then Some(0)
    else if name == "RXI" then Some(1)
    else if name == "TXOI" then Some(2)
    else if name == "RXOI" then Some(3)
    else None
  }

  /** The name the documentation gives each bitfield field. */
  function StatusDocName(f: StatusField): string {
    match f
    case Txf => "TXBF"
    case Rxf => "RXBF"
    case Txo => "TXOV"
    case Rxo => "RXOV"
  }

  function ControlDocName(f: ControlField): string {
    match f
    case Txe => "TXE"
    case Rxe => "RXE"
    case Txie => "TXIE"
    case Rxie => "RXIE"
    case Txoie => "TXOE"
    case Rxoie => "RXOE"
  }

  function IntStatusDocName(f: IntStatusField): string {
    match f
    case Txi => "TXI"
    case Rxi => "RXI"
    case Txoi => "TXOI"
    case Rxoi => "RXOI"
  }

  /** Every bitfield field sits where the documented register map says. */
  lemma LayoutMatchesDocumentation(s: StatusField, c: ControlField, i: IntStatusField)
    ensures DocumentedStatusBit(StatusDocName(s)) == Some(StatusBit(s))
    ensures DocumentedControlBit(ControlDocName(c)) == Some(ControlBit(c))
    ensures DocumentedIntStatusBit(IntStatusDocName(i)) == Some(IntStatusBit(i))
  {
  }

  /** The fields of each bitfield occupy distinct bits of the 32-bit word. */
  lemma FieldsDistinct(s1: StatusField, s2: StatusField, c1: ControlField, c2: ControlField, i1: IntStatusField, i2: IntStatusField)
    ensures StatusBit(s1) < Width && ControlBit(c1) < Width && IntStatusBit(i1) < Width
    ensures s1 != s2 ==> StatusBit(s1) != StatusBit(s2)
    ensures c1 != c2 ==> ControlBit(c1) != ControlBit(c2)
    ensures i1 != i2 ==> IntStatusBit(i1) != IntStatusBit(i2)
  {
  }

  /**
    Setting one `Control` field gives back the value set and leaves every
    other field as it was.
  */
  lemma ControlFieldsIndependent(raw: Word, f: ControlField, b: bool, g: ControlField)
    ensures Test(With(raw, ControlBit(f), b), ControlBit(g)) == if f == g then b else Test(raw, ControlBit(g))
  {
    if f != g {
      WithOthers(raw, ControlBit(f), b, ControlBit(g));
    }
  }

  /** `IntStatus`'s default value, which its builder starts from: all bits clear. */
  const IntStatusDefault: Word := {}

  /** `IntStatus::builder().with_txi(txi).with_rxi(rxi).with_txoi(txoi).with_rxoi(rxoi).build()`. */
  function IntStatusValue(txi: bool, rxi: bool, txoi: bool, rxoi: bool): (r: Word)
    ensures Test(r, IntStatusBit(Txi)) == txi && Test(r, IntStatusBit(Rxi)) == rxi
    ensures Test(r, IntStatusBit(Txoi)) == txoi && Test(r, IntStatusBit(Rxoi)) == rxoi
    ensures forall i | i in r :: i < 4
  {
    var v := With(IntStatusDefault, IntStatusBit(Txi), txi);
    var v := With(v, IntStatusBit(Rxi), rxi);
    var v := With(v, IntStatusBit(Txoi), txoi);
    With(v, IntStatusBit(Rxoi), rxoi)
  }

  /** The raw values the TX and RX halves store to clear their interrupts: 0b0101 and 0b1010. */
  lemma ClearValues()
    ensures Raw(IntStatusValue(true, false, true, false)) == 0x5
    ensures Raw(IntStatusValue(false, true, false, true)) == 0xA
  {
    RawLow(IntStatusValue(true, false, true, false), 4);
    RawLow(IntStatusValue(false, true, false, true), 4);
  }
}
