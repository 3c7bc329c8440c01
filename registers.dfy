/** Bit fields of the controller and stream descriptor registers (sections
    3.3 and 4.4 of the Intel High Definition Audio Specification rev. 1.0a)
    as hda.c reads and sets them with its macros (hda.c:28-65), and the
    choice of the CORB/RIRB ring size from the SZCAP field
    (hda.c:1668-1708). */
module HdaRegisters {
  import opened HdaTypes

  // CORBWP: the command ring write pointer is bits 0-7.
  function CorbWpSetWp(corbwp: bv16, wp: bv16): (r: bv16)
    requires wp <= 0xff
    ensures r & 0xff == wp
    ensures r & 0xff00 == corbwp & 0xff00
  {
    (corbwp & !0xff) | wp
  }

  // RIRBWP: the response ring write pointer is bits 0-7.
  function RirbWpWp(rirbwp: bv16): (wp: nat)
    ensures wp < 0x100
  {
    (rirbwp & 0xff) as nat
  }

  // RIRBSTS: bit 0 is the response interrupt flag, cleared by writing 1.
  predicate RirbStsIntFl(sts: bv8) { sts & 1 == 1 }

  function RirbStsClearIntFl(sts: bv8): (r: bv8)
    ensures RirbStsIntFl(r)
    ensures r & !1 == sts & !1
  {
    sts | 1
  }

  // SDnCTL byte 0: bit 0 stream reset, bit 1 run, bit 2 interrupt on completion.
  predicate SdCtl0Rst(ctl: bv8) { ctl & 1 == 1 }
  predicate SdCtl0Run(ctl: bv8) { (ctl >> 1) & 1 == 1 }
  predicate SdCtl0Ioce(ctl: bv8) { (ctl >> 2) & 1 == 1 }

  function Bit(b: bool): bv8 { if b then 1 else 0 }

  function SdCtl0SetRst(ctl: bv8, rst: bool): (r: bv8)
    ensures SdCtl0Rst(r) == rst
    ensures r & !1 == ctl & !1
  {
    (ctl & !1) | Bit(rst)
  }

  function SdCtl0SetRun(ctl: bv8, run: bool): (r: bv8)
    ensures SdCtl0Run(r) == run
    ensures r & !2 == ctl & !2
  {
    (ctl & !(1 << 1)) | (Bit(run) << 1)
  }

  function SdCtl0SetIoce(ctl: bv8, ioce: bool): (r: bv8)
    ensures SdCtl0Ioce(r) == ioce
    ensures r & !4 == ctl & !4
  {
    (ctl & !(1 << 2)) | (Bit(ioce) << 2)
  }

  // SDnCTL byte 2: bits 4-7 are the stream number.
  function SdCtl2Strm(ctl: bv8): bv8 { ctl >> 4 }

  function SdCtl2SetStrm(ctl: bv8, strm: bv8): (r: bv8)
    requires strm < 0x10
    ensures SdCtl2Strm(r) == strm
    ensures r & 0xf == ctl & 0xf
  {
    (ctl & !(0xf << 4)) | (strm << 4)
  }

  // SDnSTS: bit 2 is the buffer completion interrupt status, cleared by writing 1.
  predicate SdStsBcis(sts: bv8) { (sts >> 2) & 1 == 1 }

  function SdStsClearBcis(sts: bv8): (r: bv8)
    ensures SdStsBcis(r)
    ensures r & !4 == sts & !4
  {
    sts | (1 << 2)
  }

  // CORBSIZE and RIRBSIZE: bits 4-7 are the size capability (SZCAP), bits
  // 0-1 the selected size: 0 for 2 entries, 1 for 16, 2 for 256.
  function SizeCap(sizeReg: bv8): bv8 { (sizeReg >> 4) & 0xf }

  function SetSize(sizeReg: bv8, size: bv8): (r: bv8)
    requires size < 4
    ensures r & 3 == size
    ensures r & !3 == sizeReg & !3
  {
    (sizeReg & !3) | size
  }

  /** The number of ring entries a size field selects. */
  function EntriesOfSize(sizeReg: bv8): nat {
    var s := sizeReg & 3;
    if s == 0 then 2 else if s == 1 then 16 else if s == 2 then 256 else 0
  }

  /** Whether the SZCAP field announces support for rings of the given size. */
  predicate Supports(sizeReg: bv8, entries: nat) {
    var cap := SizeCap(sizeReg);
    (entries == 2 && cap & 1 != 0) ||
    (entries == 16 && cap & 2 != 0) ||
    (entries == 256 && cap & 4 != 0)
  }

  /** The outcome of programming a ring's size register: the number of ring
      entries and the value written back to the register. */
  datatype RingSize = RingSize(entries: nat, sizeReg: bv8)

  /** The SZCAP assert: no size of 2, 16 or 256 entries is supported. */
  datatype RingSizePanic = NoSupportedSize

  /** The ring size selection applied to CORBSIZE (hda.c:1668-1688) and,
      identically, to RIRBSIZE (hda.c:1690-1708): the largest supported size
      is chosen, and the register keeps its other bits. */
  function SelectRingSize(sizeReg: bv8): (r: Result<RingSize, RingSizePanic>)
    ensures r.Ok? <==> Supports(sizeReg, 2) || Supports(sizeReg, 16) || Supports(sizeReg, 256)
    ensures r.Ok? ==> r.value.entries in {2, 16, 256} && Supports(sizeReg, r.value.entries)
    ensures r.Ok? ==> forall e :: e in {2, 16, 256} && Supports(sizeReg, e) ==> e <= r.value.entries
    ensures r.Ok? ==> EntriesOfSize(r.value.sizeReg) == r.value.entries
    ensures r.Ok? ==> r.value.sizeReg & !3 == sizeReg & !3
  {
    var cap := SizeCap(sizeReg);
    if cap & (1 << 2) != 0 then Ok(RingSize(256, SetSize(sizeReg, 1 << 1)))
    else if cap & (1 << 1) != 0 then Ok(RingSize(16, SetSize(sizeReg, 1)))
    else if cap & 1 != 0 then Ok(RingSize(2, SetSize(sizeReg, 0)))
    else Panic(NoSupportedSize)
  }
}
