/**
  The basic CMSDK UART driver (example-code/qemu-common/src/cmsdk_uart/basic.rs).

  `Registers` is the peripheral's register block as the driver sees it:
  the value a read of `data` returns, the `status`, `control` and
  `int_status` bitfields, and the read-only identification words.  Every
  store the driver makes is appended to the ghost `writes` log.  The TX
  half, the RX half and the whole driver all hold the same block, as the
  source's clones of one `MmioRegisters` do.
*/
module CmsdkUart {
  import opened Wrappers
  import opened Bits
  import UR = UartRegisters

  const U32Max: nat := 0xFFFF_FFFF
  type U32 = x: nat | x <= U32Max
  type U8 = x: nat | x < 0x100

  type PidWords = s: seq<U32> | |s| == 2 witness [0, 0]
  type CidWords = s: seq<U32> | |s| == 4 witness [0, 0, 0, 0]

  /** The driver's error codes (example-code/qemu-common/src/cmsdk_uart/mod.rs). */
  datatype Error = InvalidInstance | InvalidBaudRate

  /** `nb::Result`: ready with a value, or `WouldBlock`.  No driver operation returns `nb::Error::Other`. */
  datatype Nb<T> = Ready(value: T) | WouldBlock

  /** One store to a UART register. */
  datatype Write = DataWrite(word: U32) | ControlWrite(raw: Word) | IntStatusWrite(raw: Word)

  /** What `check` expects in the CID registers. */
  const ValidCid: CidWords := [0x0D, 0xF0, 0x05, 0xB1]

  /** What `check` expects in PID0 and the low half of PID1. */
  const ValidPid: nat := 0x821

  const TxFull: nat := UR.StatusBit(UR.Txf)
  const RxFull: nat := UR.StatusBit(UR.Rxf)
  const TxEnable: nat := UR.ControlBit(UR.Txe)
  const RxEnable: nat := UR.ControlBit(UR.Rxe)
  const TxInterruptEnable: nat := UR.ControlBit(UR.Txie)
  const RxInterruptEnable: nat := UR.ControlBit(UR.Rxie)
  const TxOverflowInterruptEnable: nat := UR.ControlBit(UR.Txoie)
  const RxOverflowInterruptEnable: nat := UR.ControlBit(UR.Rxoie)

  /**
    `u16::from_be_bytes([pid1, pid0])` where `pid0` is PID0 cut to a `u8`
    and `pid1` is PID1 cut to a `u8` and masked with `0x0F`.
  */
  function PartNumber(pid0: U32, pid1: U32): (p: nat)
    ensures p < 0x1000
  {
    ((pid1 % 0x100) % 0x10) * 0x100 + pid0 % 0x100
  }

  /** The identification words of a genuine CMSDK UART. */
  predicate IsValidInstance(cid: CidWords, pid: PidWords) {
    cid == ValidCid && PartNumber(pid[0], pid[1]) == ValidPid
  }

  /** Only the low byte of PID0 and the low nibble of PID1 take part in the part number. */
  lemma PartNumberBits(pid0: U32, pid1: U32)
    ensures PartNumber(pid0, pid1) == ValidPid <==> pid0 % 0x100 == 0x21 && pid1 % 0x10 == 0x8
  {
    LowNibble(pid1);
    var hi := pid1 % 0x10;
    var lo := pid0 % 0x100;
    assert PartNumber(pid0, pid1) == hi * 0x100 + lo;
  }

  /** Cutting to a `u8` and then masking with `0x0F` keeps the low four bits. */
  lemma LowNibble(x: nat)
    ensures (x % 0x100) % 0x10 == x % 0x10
  {
    var q, r := x / 0x100, x % 0x100;
    var q', r' := r / 0x10, r % 0x10;
    assert x == (q * 0x10 + q') * 0x10 + r';
    assert 0 <= r' < 0x10;
  }

  class Registers {
    /** What a read of `data` returns: the received byte in its low 8 bits. */
    var data: U32
    var status: Word
    var control: Word
    var intStatus: Word
    const pid: PidWords
    const cid: CidWords
    ghost var writes: seq<Write>

    /** The register block as the driver finds it. */
    constructor(data: U32, status: Word, control: Word, intStatus: Word, pid: PidWords, cid: CidWords)
      ensures this.data == data && this.status == status && this.control == control && this.intStatus == intStatus
      ensures this.pid == pid && this.cid == cid && writes == []
    {
      this.data := data;
      this.status := status;
      this.control := control;
      this.intStatus := intStatus;
      this.pid := pid;
      this.cid := cid;
      writes := [];
    }

    /** `write_data`. */
    method WriteData(raw: U32)
      modifies this
      ensures writes == old(writes) + [DataWrite(raw)]
      ensures data == old(data) && status == old(status) && control == old(control) && intStatus == old(intStatus)
    {
      writes := writes + [DataWrite(raw)];
    }

    /** `write_control`. */
    method WriteControl(raw: Word)
      modifies this
      ensures control == raw && writes == old(writes) + [ControlWrite(raw)]
      ensures data == old(data) && status == old(status) && intStatus == old(intStatus)
    {
      control := raw;
      writes := writes + [ControlWrite(raw)];
    }

    /** `write_int_status`: what the hardware does with the bits written is not part of this model. */
    method WriteIntStatus(raw: Word)
      modifies this
      ensures writes == old(writes) + [IntStatusWrite(raw)]
      ensures data == old(data) && status == old(status) && control == old(control) && intStatus == old(intStatus)
    {
      writes := writes + [IntStatusWrite(raw)];
    }
  }

  /** The TX half of the driver. */
  class Tx {
    const regs: Registers

    constructor(regs: Registers)
      ensures this.regs == regs
    {
      this.regs := regs;
    }

    /** `Tx::disable`: clear `txe`, keep every other control bit. */
    method Disable()
      modifies regs
      ensures !Test(regs.control, TxEnable) && regs.control - {TxEnable} == old(regs.control) - {TxEnable}
      ensures regs.writes == old(regs.writes) + [ControlWrite(regs.control)]
      ensures regs.data == old(regs.data) && regs.status == old(regs.status) && regs.intStatus == old(regs.intStatus)
    {
      regs.WriteControl(With(regs.control, TxEnable, false));
    }

    /** `Tx::enable`: set `txe`, keep every other control bit. */
    method Enable()
      modifies regs
      ensures Test(regs.control, TxEnable) && regs.control - {TxEnable} == old(regs.control) - {TxEnable}
      ensures regs.writes == old(regs.writes) + [ControlWrite(regs.control)]
      ensures regs.data == old(regs.data) && regs.status == old(regs.status) && regs.intStatus == old(regs.intStatus)
    {
      regs.WriteControl(With(regs.control, TxEnable, true));
    }

    /** `Tx::enable_interrupts`: set `txie` and `txoie`, keep every other control bit. */
    method EnableInterrupts()
      modifies regs
      ensures Test(regs.control, TxInterruptEnable) && Test(regs.control, TxOverflowInterruptEnable)
      ensures regs.control - {TxInterruptEnable, TxOverflowInterruptEnable}
           == old(regs.control) - {TxInterruptEnable, TxOverflowInterruptEnable}
      ensures regs.writes == old(regs.writes) + [ControlWrite(regs.control)]
      ensures regs.data == old(regs.data) && regs.status == old(regs.status) && regs.intStatus == old(regs.intStatus)
    {
      regs.WriteControl(With(With(regs.control, TxInterruptEnable, true), TxOverflowInterruptEnable, true));
    }

    /** `Tx::disable_interrupts`: clear `txie` and `txoie`, keep every other control bit. */
    method DisableInterrupts()
      modifies regs
      ensures !Test(regs.control, TxInterruptEnable) && !Test(regs.control, TxOverflowInterruptEnable)
      ensures regs.control - {TxInterruptEnable, TxOverflowInterruptEnable}
           == old(regs.control) - {TxInterruptEnable, TxOverflowInterruptEnable}
      ensures regs.writes == old(regs.writes) + [ControlWrite(regs.control)]
      ensures regs.data == old(regs.data) && regs.status == old(regs.status) && regs.intStatus == old(regs.intStatus)
    {
      regs.WriteControl(With(With(regs.control, TxInterruptEnable, false), TxOverflowInterruptEnable, false));
    }

    /** `Tx::clear_interrupts`: store an `IntStatus` with exactly `txi` and `txoi` set. */
    method ClearInterrupts()
      modifies regs
      ensures regs.writes == old(regs.writes) + [IntStatusWrite(UR.IntStatusValue(true, false, true, false))]
      ensures regs.data == old(regs.data) && regs.status == old(regs.status) && regs.control == old(regs.control)
      ensures regs.intStatus == old(regs.intStatus)
    {
      regs.WriteIntStatus(UR.IntStatusValue(true, false, true, false));
    }

    /**
      `Tx::write`: with the transmit buffer full, `WouldBlock` and nothing
      stored; otherwise the byte, zero-extended, is stored to `data`.
    */
    method Write(byte: U8) returns (r: Nb<()>)
      modifies regs
      ensures r.WouldBlock? <==> Test(regs.status, TxFull)
      ensures r.WouldBlock? ==> regs.writes == old(regs.writes)
      ensures r.Ready? ==> regs.writes == old(regs.writes) + [DataWrite(byte)]
      ensures regs.data == old(regs.data) && regs.status == old(regs.status) && regs.control == old(regs.control)
      ensures regs.intStatus == old(regs.intStatus)
    {
      if Test(regs.status, TxFull) {
        return WouldBlock;
      }
      regs.WriteData(byte);
      r := Ready(());
    }
  }

  /** The RX half of the driver. */
  class Rx {
    const regs: Registers

    constructor(regs: Registers)
      ensures this.regs == regs
    {
      this.regs := regs;
    }

    /** `Rx::enable_interrupts`: set `rxie` and `rxoie`, keep every other control bit. */
    method EnableInterrupts()
      modifies regs
      ensures Test(regs.control, RxInterruptEnable) && Test(regs.control, RxOverflowInterruptEnable)
      ensures regs.control - {RxInterruptEnable, RxOverflowInterruptEnable}
           == old(regs.control) - {RxInterruptEnable, RxOverflowInterruptEnable}
      ensures regs.writes == old(regs.writes) + [ControlWrite(regs.control)]
      ensures regs.data == old(regs.data) && regs.status == old(regs.status) && regs.intStatus == old(regs.intStatus)
    {
      var c := regs.control;
      c := With(c, RxInterruptEnable, true);
      c := With(c, RxOverflowInterruptEnable, true);
      regs.WriteControl(c);
    }

    /** `Rx::disable_interrupts`: clear `rxie` and `rxoie`, keep every other control bit. */
    method DisableInterrupts()
      modifies regs
      ensures !Test(regs.control, RxInterruptEnable) && !Test(regs.control, RxOverflowInterruptEnable)
      ensures regs.control - {RxInterruptEnable, RxOverflowInterruptEnable}
           == old(regs.control) - {RxInterruptEnable, RxOverflowInterruptEnable}
      ensures regs.writes == old(regs.writes) + [ControlWrite(regs.control)]
      ensures regs.data == old(regs.data) && regs.status == old(regs.status) && regs.intStatus == old(regs.intStatus)
    {
      var c := regs.control;
      c := With(c, RxInterruptEnable, false);
      c := With(c, RxOverflowInterruptEnable, false);
      regs.WriteControl(c);
    }

    /**
      `Rx::read`: with the receive buffer empty, `WouldBlock`; otherwise the
      low 8 bits of `data`.
    */
    method Read() returns (r: Nb<U8>)
      ensures r.WouldBlock? <==> !Test(regs.status, RxFull)
      ensures r.Ready? ==> r.value == regs.data % 0x100
    {
      if !Test(regs.status, RxFull) {
        return WouldBlock;
      }
      r := Ready(regs.data % 0x100);
    }

    /** `Rx::clear_interrupts`: store an `IntStatus` with exactly `rxi` and `rxoi` set. */
    method ClearInterrupts()
      modifies regs
      ensures regs.writes == old(regs.writes) + [IntStatusWrite(UR.IntStatusValue(false, true, false, true))]
      ensures regs.data == old(regs.data) && regs.status == old(regs.status) && regs.control == old(regs.control)
      ensures regs.intStatus == old(regs.intStatus)
    {
      regs.WriteIntStatus(UR.IntStatusValue(false, true, false, true));
    }
  }

  /** The whole driver: a TX half and an RX half over one register block. */
  class Uart {
    const tx: Tx
    const rx: Rx

    /** `CmsdkUart::new`: both halves get the same registers. */
    constructor(regs: Registers)
      ensures tx.regs == regs && rx.regs == regs
    {
      tx := new Tx(regs);
      rx := new Rx(regs);
    }

    /** Both halves drive the same register block. */
    predicate Shared() {
      tx.regs == rx.regs
    }

    /**
      `init`: the baud divisor `system_clock / baud_rate` must be at least
      16; if not, `InvalidBaudRate` and no register is touched.  Otherwise
      `txe` and `rxe` are set and every other control bit is kept.  The
      divisor itself is not stored anywhere.
    */
    method Init(baudRate: U32, systemClock: U32) returns (r: Result<(), Error>)
      requires baudRate != 0
      modifies rx.regs
      ensures r.Err? <==> systemClock < 16 * baudRate
      ensures r.Err? ==> r.error == InvalidBaudRate && rx.regs.writes == old(rx.regs.writes) && rx.regs.control == old(rx.regs.control)
      ensures r.Ok? ==> Test(rx.regs.control, TxEnable) && Test(rx.regs.control, RxEnable)
      ensures r.Ok? ==> rx.regs.control - {TxEnable, RxEnable} == old(rx.regs.control) - {TxEnable, RxEnable}
      ensures r.Ok? ==> rx.regs.writes == old(rx.regs.writes) + [ControlWrite(rx.regs.control)]
      ensures rx.regs.data == old(rx.regs.data) && rx.regs.status == old(rx.regs.status) && rx.regs.intStatus == old(rx.regs.intStatus)
    {
      var divisor := systemClock / baudRate;
      DivisorBound(systemClock, baudRate);
      if divisor < 16 {
        return Err(InvalidBaudRate);
      }
      rx.regs.WriteControl(With(With(rx.regs.control, TxEnable, true), RxEnable, true));
      r := Ok(());
    }

    /** `CmsdkUart::read`, the same as the RX half's. */
    method Read() returns (r: Nb<U8>)
      ensures r.WouldBlock? <==> !Test(rx.regs.status, RxFull)
      ensures r.Ready? ==> r.value == rx.regs.data % 0x100
    {
      r := rx.Read();
    }

    /** `CmsdkUart::write`, the same as the TX half's. */
    method Write(byte: U8) returns (r: Nb<()>)
      requires Shared()
      modifies rx.regs
      ensures r.WouldBlock? <==> Test(rx.regs.status, TxFull)
      ensures r.WouldBlock? ==> rx.regs.writes == old(rx.regs.writes)
      ensures r.Ready? ==> rx.regs.writes == old(rx.regs.writes) + [DataWrite(byte)]
      ensures rx.regs.data == old(rx.regs.data) && rx.regs.status == old(rx.regs.status)
      ensures rx.regs.control == old(rx.regs.control) && rx.regs.intStatus == old(rx.regs.intStatus)
    {
      r := tx.Write(byte);
    }

    /**
      `check`: `InvalidInstance` unless the four CID words are exactly the
      expected ones and the part number read from PID0/PID1 is 0x821.
    */
    method Check() returns (r: Result<(), Error>)
      ensures r.Ok? <==> IsValidInstance(rx.regs.cid, rx.regs.pid)
      ensures r.Err? ==> r.error == InvalidInstance
    {
      var cidRead := [rx.regs.cid[0], rx.regs.cid[1], rx.regs.cid[2], rx.regs.cid[3]];
      if cidRead != ValidCid {
        return Err(InvalidInstance);
      }
      var pid0 := rx.regs.pid[0] % 0x100;
      var pid1 := (rx.regs.pid[1] % 0x100) % 0x10;
      var pid := pid1 * 0x100 + pid0;
      if pid != ValidPid {
        return Err(InvalidInstance);
      }
      r := Ok(());
    }

    /** `read_int_status`. */
    method ReadIntStatus() returns (flags: Word)
      ensures flags == rx.regs.intStatus
    {
      flags := rx.regs.intStatus;
    }

    /** `clear_interrupts(mask)`: store `mask` to `int_status`. */
    method ClearInterrupts(mask: Word)
      modifies rx.regs
      ensures rx.regs.writes == old(rx.regs.writes) + [IntStatusWrite(mask)]
      ensures rx.regs.data == old(rx.regs.data) && rx.regs.status == old(rx.regs.status)
      ensures rx.regs.control == old(rx.regs.control) && rx.regs.intStatus == old(rx.regs.intStatus)
    {
      rx.regs.WriteIntStatus(mask);
    }

    /** `enable_rx_interrupts`. */
    method EnableRxInterrupts()
      modifies rx.regs
      ensures Test(rx.regs.control, RxInterruptEnable) && Test(rx.regs.control, RxOverflowInterruptEnable)
      ensures rx.regs.control - {RxInterruptEnable, RxOverflowInterruptEnable}
           == old(rx.regs.control) - {RxInterruptEnable, RxOverflowInterruptEnable}
      ensures rx.regs.writes == old(rx.regs.writes) + [ControlWrite(rx.regs.control)]
      ensures rx.regs.data == old(rx.regs.data) && rx.regs.status == old(rx.regs.status) && rx.regs.intStatus == old(rx.regs.intStatus)
    {
      rx.EnableInterrupts();
    }
  }

  /** The divisor is below 16 exactly when the clock is below 16 baud periods. */
  lemma DivisorBound(systemClock: nat, baudRate: nat)
    requires baudRate != 0
    ensures systemClock / baudRate < 16 <==> systemClock < 16 * baudRate
  {
    var q := systemClock / baudRate;
    assert systemClock == q * baudRate + systemClock % baudRate;
    if q >= 16 {
      assert q * baudRate >= 16 * baudRate;
    } else {
      assert q * baudRate <= 15 * baudRate;
    }
  }
}
