/**
 * The header-level operations of `eepromFit.c`: the two CRCs and
 * `eeVerifyHdr`, the Siemens default header of `eeDefaultHdr`, the field
 * setters of the header editor acting on one header in place, and the fixed
 * order in which `eeHdrOps` applies the requested operations.
 */
module EepromHeader {
  import opened FitTypes
  import opened EepromLayout
  import opened EepromFit
  import FitCrc

  // ---------------------------------------------------------------------
  // CRCs (setCrc1, setCrc2, eeVerifyHdr)
  // ---------------------------------------------------------------------

  function CrcValue(fcs: bv16): u16
  {
    fcs as int as u16
  }

  /** `genCrc(hp, &hp->crc1)`: the CRC of the bytes before `crc1`. */
  function Crc1Of(h: EepromV1, order: ByteOrder): u16
  {
    CrcValue(FitCrc.GenCrc(Crc1Region(h, order)))
  }

  /** `genCrc(&hp->latitude, &hp->crc2)`: the CRC of the bytes from `latitude` up to `crc2`. */
  function Crc2Of(h: EepromV1, order: ByteOrder): u16
  {
    CrcValue(FitCrc.GenCrc(Crc2Region(h, order)))
  }

  /**
   * `eeVerifyHdr`, read off the memory image: -1 when the two bytes at
   * `crc1` are not the CRC of the bytes before them, otherwise -2 when the
   * two bytes at `crc2` are not the CRC of the bytes from `latitude` on,
   * otherwise 0.
   */
  function VerifyHdr(h: EepromV1, order: ByteOrder): int
  {
    if h.crc1 != Crc1Of(h, order) then -1
    else if h.crc2 != Crc2Of(h, order) then -2
    else 0
  }

  /** The verdict of `eeVerifyHdr`, stated on the 256 bytes of the header as they lie in memory. */
  lemma VerifyHdrMeaning(h: EepromV1, order: ByteOrder)
    ensures var r := VerifyHdr(h, order);
      var img := Image(h, order);
      var crc1Good := img[CRC1_OFFSET..LATITUDE_OFFSET] == Bytes16(CrcValue(FitCrc.GenCrc(img[..CRC1_OFFSET])), order);
      var crc2Good := img[CRC2_OFFSET..USER_DATA_OFFSET] == Bytes16(CrcValue(FitCrc.GenCrc(img[LATITUDE_OFFSET..CRC2_OFFSET])), order);
      (r == -1 <==> !crc1Good) && (r == -2 <==> crc1Good && !crc2Good) && (r == 0 <==> crc1Good && crc2Good)
  {
    if h.crc1 != Crc1Of(h, order) {
      Bytes16Distinct(h.crc1, Crc1Of(h, order), order);
    } else if h.crc2 != Crc2Of(h, order) {
      Bytes16Distinct(h.crc2, Crc2Of(h, order), order);
    }
  }

  lemma Bytes16Distinct(x: u16, y: u16, order: ByteOrder)
    requires x != y
    ensures Bytes16(x, order) != Bytes16(y, order)
  {
    if Bytes16(x, order) == Bytes16(y, order) {
      Bytes16Injective(x, y, order);
    }
  }

  /** `setCrc1`: `crc1` becomes the CRC of the bytes before it. */
  function WithCrc1(h: EepromV1, order: ByteOrder): EepromV1
  {
    h.(crc1 := Crc1Of(h, order))
  }

  /** `setCrc2`: `crc2` becomes the CRC of the bytes from `latitude` up to it. */
  function WithCrc2(h: EepromV1, order: ByteOrder): EepromV1
  {
    h.(crc2 := Crc2Of(h, order))
  }

  /** Neither CRC covers either CRC field. */
  lemma RegionsSkipCrcs(h: EepromV1, x: u16, order: ByteOrder)
    ensures Crc1Region(h.(crc1 := x), order) == Crc1Region(h, order)
    ensures Crc1Region(h.(crc2 := x), order) == Crc1Region(h, order)
    ensures Crc2Region(h.(crc1 := x), order) == Crc2Region(h, order)
    ensures Crc2Region(h.(crc2 := x), order) == Crc2Region(h, order)
  {
  }

  /** After `setCrc1` and `setCrc2`, in either order, the header verifies. */
  lemma SetCrcsVerify(h: EepromV1, order: ByteOrder)
    ensures VerifyHdr(WithCrc2(WithCrc1(h, order), order), order) == 0
    ensures VerifyHdr(WithCrc1(WithCrc2(h, order), order), order) == 0
  {
    RegionsSkipCrcs(h, Crc1Of(h, order), order);
    RegionsSkipCrcs(h, Crc2Of(h, order), order);
    RegionsSkipCrcs(WithCrc1(h, order), Crc2Of(h, order), order);
    RegionsSkipCrcs(WithCrc2(h, order), Crc1Of(h, order), order);
  }

  /** `setCrc1` alone repairs a header whose only fault was the first CRC. */
  lemma SetCrc1Verify(h: EepromV1, order: ByteOrder)
    requires h.crc2 == Crc2Of(h, order)
    ensures VerifyHdr(WithCrc1(h, order), order) == 0
  {
    RegionsSkipCrcs(h, Crc1Of(h, order), order);
  }

  /** A header that verifies is left as it is by `setCrc1` and `setCrc2`. */
  lemma SetCrcsIdempotent(h: EepromV1, order: ByteOrder)
    requires VerifyHdr(h, order) == 0
    ensures WithCrc1(h, order) == h && WithCrc2(h, order) == h
  {
  }

  // ---------------------------------------------------------------------
  // eeDefaultHdr
  // ---------------------------------------------------------------------

  /** A seven-character model name and its NUL, as the 8-byte `model` field. */
  function ModelName(s: string): (r: Bytes8)
    requires |s| == 7 && forall i :: 0 <= i < 7 ==> s[i] as int < 256
    ensures forall i :: 0 <= i < 7 ==> r[i] as int == s[i] as int
    ensures r[7] == 0
  {
    seq(8, i requires 0 <= i < 8 => if i < 7 then s[i] as int as byte else 0)
  }

  /** The version stamp of every default module: 1 January 2014, release 1.1.0. */
  const DEFAULT_VERSION: ModV := ModV(0x2014, 1, 1, 1, 1, 0)

  /** The four default modules: the host, the display, the field I/O and the slot A2 card. */
  function DefaultModules(): (ms: Modules)
  {
    [ModD(2, 3, ModelName("ATC-M60"), DEFAULT_VERSION, 2),
     ModD(3, 3, ModelName("ATC-16L"), DEFAULT_VERSION, 2),
     ModD(1, 3, ModelName("M52-USB"), DEFAULT_VERSION, 2),
     ModD(6, 3, ModelName("A2-Comm"), DEFAULT_VERSION, 2)]
  }

  /** Both Ethernet devices: a managed switch on a Phy interface, addresses zero. */
  const DEFAULT_ETHD: EthD := EthD(4, 0, [0, 0, 0, 0, 0, 0], 0, 0, 2)

  /** The eleven default port descriptions. */
  const DEFAULT_PORTS: Ports := [
    PortD(1, 1, 9600), PortD(2, 1, 9600), PortD(3, 3, 153600), PortD(4, 1, 115200),
    PortD(5, 3, 614400), PortD(6, 1, 38400), PortD(8, 1, 9600), PortD(9, 0, 0),
    PortD(10, 0, 0), PortD(12, 2, 0), PortD(13, 0, 0)]

  /** The default header before its CRCs are generated (both still zero). */
  function DefaultFields(): EepromV1
  {
    EepromV1(
      1, 203, 4, DefaultModules(),
      16, 40, 0, 0,
      2, [DEFAULT_ETHD, DEFAULT_ETHD], 2, 1,
      0x07e5, 11, DEFAULT_PORTS,
      0x07e5, 0x0080, 0x0020, 0x0020, 0, 0,
      [0, 0, 0, 0], [0, 0, 0, 0], 0xffff, 0xffff,
      seq(35, _ => 0xff), 0, [0xff, 0xff, 0xff, 0xff])
  }

  /** `eeDefaultHdr`: the Siemens default header with both CRCs generated; it verifies. */
  function DefaultHeader(order: ByteOrder): EepromV1
  {
    WithCrc2(WithCrc1(DefaultFields(), order), order)
  }

  /** The default header verifies, and differs from the default fields only in its two CRCs. */
  lemma DefaultHeaderVerifies(order: ByteOrder)
    ensures VerifyHdr(DefaultHeader(order), order) == 0
    ensures DefaultHeader(order).(crc1 := 0, crc2 := 0) == DefaultFields()
  {
    SetCrcsVerify(DefaultFields(), order);
  }

  /** Every default port description is one `setPort` would accept. */
  lemma DefaultPortsValid()
    ensures forall i :: 0 <= i < PORT_COUNT ==> ValidPort(DEFAULT_PORTS[i])
  {
    assert IsPortSpeed(9600) && IsPortSpeed(153600) && IsPortSpeed(115200);
    assert IsPortSpeed(614400) && IsPortSpeed(38400) && IsPortSpeed(0);
  }

  /** Every default version date is one `getModule` shows as valid. */
  lemma DefaultDatesValid()
    ensures IsBcdMonth(DEFAULT_VERSION.monBcd) && CheckDay(DEFAULT_VERSION.monBcd, DEFAULT_VERSION.dayBcd) == DayShown
    ensures IsBcd4(DEFAULT_VERSION.yearBcd as int) && Bcd4Value(DEFAULT_VERSION.yearBcd as int) == 2014
  {
    FourNibbles(2, 0, 1, 4);
  }

  /**
   * The default header describes what the editor's checks accept: counts
   * 4, 2 and 11, recognised ports, Ethernet types and module dates.
   */
  lemma DefaultHeaderChecks(order: ByteOrder)
    ensures var h := DefaultHeader(order);
      h.version == 1 && h.size == 203 && h.modules as int == MODULE_COUNT &&
      h.ethdevs as int == ETHDEV_COUNT && h.ports as int == PORT_COUNT
    ensures forall i :: 0 <= i < PORT_COUNT ==> ValidPort(DefaultHeader(order).port[i])
    ensures forall i :: 0 <= i < ETHDEV_COUNT ==> ValidEthType(DefaultHeader(order).ethdev[i].kind)
    ensures forall i :: 0 <= i < MODULE_COUNT ==> DefaultHeader(order).moduleDesc[i].version == DEFAULT_VERSION
  {
    var h := DefaultHeader(order);
    DefaultHeaderVerifies(order);
    assert h.port == DefaultFields().port && h.ethdev == DefaultFields().ethdev;
    DefaultPortsValid();
  }

  // ---------------------------------------------------------------------
  // The erased EEPROM (EE_INIT)
  // ---------------------------------------------------------------------

  /** The header `memset(mp, 0xff, sz)` leaves: every field all ones. */
  const ERASED_MODV: ModV := ModV(0xffff, 0xff, 0xff, 0xff, 0xff, 0xff)
  const ERASED_MODD: ModD := ModD(0xff, 0xff, [0xff, 0xff, 0xff, 0xff, 0xff, 0xff, 0xff, 0xff], ERASED_MODV, 0xff)
  const ERASED_ETHD: EthD := EthD(0xff, 0xffff_ffff, [0xff, 0xff, 0xff, 0xff, 0xff, 0xff], 0xffff_ffff, 0xffff_ffff, 0xff)
  const ERASED_PORTD: PortD := PortD(0xff, 0xff, 0xffff_ffff)

  function Erased(): EepromV1
  {
    EepromV1(
      0xff, 0xffff, 0xff, [ERASED_MODD, ERASED_MODD, ERASED_MODD, ERASED_MODD],
      0xff, 0xff, 0xff, 0xff,
      0xff, [ERASED_ETHD, ERASED_ETHD], 0xff, 0xff,
      0xffff, 0xff, seq(11, _ => ERASED_PORTD),
      0xffff, 0xffff, 0xffff, 0xffff, 0xff, 0xffff,
      [0xff, 0xff, 0xff, 0xff], [0xff, 0xff, 0xff, 0xff], 0xffff, 0xffff,
      seq(35, _ => 0xff), 0xffff, [0xff, 0xff, 0xff, 0xff])
  }

  // ---------------------------------------------------------------------
  // Port maps and the fixed-count and com_drop setters
  // ---------------------------------------------------------------------

  /** The five `portmap` fields of the header. */
  datatype PortmapField = PortsUsed | PortsPres | Sb1 | Sb2 | Ts2

  function GetMap(h: EepromV1, f: PortmapField): u16
  {
    match f
    case PortsUsed => h.portsUsed
    case PortsPres => h.portsPres
    case Sb1 => h.sb1
    case Sb2 => h.sb2
    case Ts2 => h.ts2
  }

  function SetMap(h: EepromV1, f: PortmapField, v: u16): (r: EepromV1)
    ensures GetMap(r, f) == v
    ensures forall g :: g != f ==> GetMap(r, g) == GetMap(h, g)
  {
    match f
    case PortsUsed => h.(portsUsed := v)
    case PortsPres => h.(portsPres := v)
    case Sb1 => h.(sb1 := v)
    case Sb2 => h.(sb2 := v)
    case Ts2 => h.(ts2 := v)
  }

  /** The default maps name exactly the ports their comments list. */
  lemma DefaultPortmaps(order: ByteOrder)
    ensures var h := DefaultHeader(order);
      PortNames(h.portsUsed) == ["sp1", "sp2", "sp3s", "sp4", "sp5s", "sp6", "sp8", "sp8s"] &&
      PortNames(h.portsPres) == PortNames(h.portsUsed) &&
      PortNames(h.sb1) == ["sp5s"] && PortNames(h.sb2) == ["sp3s"] && PortNames(h.ts2) == ["sp3s"]
  {
    var h := DefaultHeader(order);
    assert h.portsUsed == 0x07e5 && h.portsPres == 0x07e5 && h.sb1 == 0x80 && h.sb2 == 0x20 && h.ts2 == 0x20 by {
      DefaultHeaderVerifies(order);
      assert h.(crc1 := 0, crc2 := 0) == DefaultFields();
    }
    PortNamesOf0x07e5();
    PortNamesSingle(0x80, 7);
    PortNamesSingle(0x20, 5);
  }

  lemma PortNamesOf0x07e5()
    ensures PortNames(0x07e5) == ["sp1", "sp2", "sp3s", "sp4", "sp5s", "sp6", "sp8", "sp8s"]
  {
    PortNamesHigh();
    assert PortNamesFrom(126, 4) == PortNamesFrom(63, 5);
    assert PortNamesFrom(252, 3) == PortNamesFrom(126, 4);
    assert PortNamesFrom(505, 2) == [PortName(2)] + PortNamesFrom(252, 3);
    assert PortNamesFrom(1010, 1) == PortNamesFrom(505, 2);
    assert PortNamesFrom(0x07e5, 0) == [PortName(0)] + PortNamesFrom(1010, 1);
  }

  /** Bits 5 to 10 of 0x07e5 are all set. */
  lemma PortNamesHigh()
    ensures PortNamesFrom(63, 5) == [PortName(5), PortName(6), PortName(7), PortName(8), PortName(9), PortName(10)]
  {
    assert PortNamesFrom(1, 10) == [PortName(10)] + PortNamesFrom(0, 11);
    assert PortNamesFrom(3, 9) == [PortName(9)] + PortNamesFrom(1, 10);
    assert PortNamesFrom(7, 8) == [PortName(8)] + PortNamesFrom(3, 9);
    assert PortNamesFrom(15, 7) == [PortName(7)] + PortNamesFrom(7, 8);
    assert PortNamesFrom(31, 6) == [PortName(6)] + PortNamesFrom(15, 7);
    assert PortNamesFrom(63, 5) == [PortName(5)] + PortNamesFrom(31, 6);
  }

  /** A map with the single bit `i` names that one port. */
  lemma {:induction false} PortNamesSingle(p: u16, i: nat)
    requires i < 11 && p as int == Pow2(i)
    ensures PortNames(p) == [PORT_NAMES[i]]
  {
    PortNamesFromSingle(p as int, 0, i);
  }

  lemma {:induction false} PortNamesFromSingle(p: nat, idx: nat, i: nat)
    requires idx + i < 11 && p == Pow2(i)
    ensures PortNamesFrom(p, idx) == [PORT_NAMES[idx + i]]
    decreases i
  {
    if i == 0 {
      assert PortNamesFrom(0, idx + 1) == [];
    } else {
      assert p / 2 == Pow2(i - 1) && p % 2 == 0;
      PortNamesFromSingle(p / 2, idx + 1, i - 1);
    }
  }

  /** `setPorts` as written: the port-description count is set to 2, although there are always 11. */
  function SetPortsAsWritten(h: EepromV1): EepromV1
  {
    h.(ports := 2)
  }

  /** After `setPorts` as written, the count no longer matches the eleven port descriptions. */
  lemma SetPortsAsWrittenCounterexample(order: ByteOrder)
    ensures DefaultHeader(order).ports as int == PORT_COUNT
    ensures SetPortsAsWritten(DefaultHeader(order)).ports as int != PORT_COUNT
  {
    DefaultHeaderVerifies(order);
  }

  /** `setPorts` as intended: the count is fixed at the number of port descriptions. */
  function SetPorts(h: EepromV1): (r: EepromV1)
    ensures r.ports as int == |r.port| == PORT_COUNT
    ensures r.(ports := h.ports) == h
  {
    h.(ports := PORT_COUNT as byte)
  }

  /** `getCom_drop` as written: it reports `contr_id`. */
  function GetComDropAsWritten(h: EepromV1): u16
  {
    h.contrId
  }

  /** `setCom_drop` as written: the value typed goes into `contr_id`. */
  function SetComDropAsWritten(h: EepromV1, v: u32): EepromV1
  {
    h.(contrId := U16(v as int) as u16)
  }

  /** Setting the communication drop overwrites the controller id and leaves `com_drop` as it was. */
  lemma ComDropAsWrittenCounterexample(order: ByteOrder)
    ensures var h := SetComDropAsWritten(DefaultHeader(order), 7);
      h.contrId == 7 && h.comDrop == 0xffff && GetComDropAsWritten(h) == 7
  {
  }

  /** `getCom_drop` as intended. */
  function GetComDrop(h: EepromV1): u16
  {
    h.comDrop
  }

  /** `setCom_drop` as intended: the value typed, truncated to 16 bits, goes into `com_drop`. */
  function SetComDrop(h: EepromV1, v: u32): (r: EepromV1)
    ensures GetComDrop(r) as int == v as int % TWO_TO_16
    ensures r.contrId == h.contrId && r.(comDrop := h.comDrop) == h
  {
    h.(comDrop := U16(v as int) as u16)
  }

  /** `setSpi3use`: the code typed, truncated to 8 bits, goes into `spi3use`; nothing else changes. */
  function SetSpi3use(h: EepromV1, v: u32): (r: EepromV1)
    ensures r.spi3use as int == v as int % 256
    ensures r.(spi3use := h.spi3use) == h
  {
    h.(spi3use := LowByte(v as int))
  }

  /** `setSpi4use`: the code typed, truncated to 8 bits, goes into `spi4use`; nothing else changes. */
  function SetSpi4use(h: EepromV1, v: u32): (r: EepromV1)
    ensures r.spi4use as int == v as int % 256
    ensures r.(spi4use := h.spi4use) == h
  {
    h.(spi4use := LowByte(v as int))
  }

  // ---------------------------------------------------------------------
  // Editing sessions (setModule, setEthdev, setPort)
  // ---------------------------------------------------------------------

  /**
   * One of the index-driven editing loops: each entry names a description by
   * index and carries what the user types for it. An index past the table
   * ends the loop, as does an entry the field editor refuses (`None`);
   * otherwise the description is replaced and the loop goes on.
   */
  function Session<D, E>(ds: seq<D>, entries: seq<(u32, E)>, edit: (D, E) -> Option<D>): (r: seq<D>)
    ensures |r| == |ds|
    decreases |entries|
  {
    if entries == [] then ds
    else
      var idx := entries[0].0 as int;
      if idx >= |ds| then ds
      else match edit(ds[idx], entries[0].1)
        case None => ds
        case Some(d) => Session(ds[idx := d], entries[1..], edit)
  }

  /** A description the session never names is left as it was. */
  lemma {:induction false} SessionUntouched<D, E>(ds: seq<D>, entries: seq<(u32, E)>, edit: (D, E) -> Option<D>, j: nat)
    requires j < |ds|
    requires forall k :: 0 <= k < |entries| ==> entries[k].0 as int != j
    ensures Session(ds, entries, edit)[j] == ds[j]
    decreases |entries|
  {
    if entries != [] {
      var idx := entries[0].0 as int;
      if idx < |ds| && edit(ds[idx], entries[0].1).Some? {
        SessionUntouched(ds[idx := edit(ds[idx], entries[0].1).value], entries[1..], edit, j);
      }
    }
  }

  /** A property every edit preserves holds of every description after the session. */
  lemma {:induction false} SessionKeeps<D, E>(ds: seq<D>, entries: seq<(u32, E)>, edit: (D, E) -> Option<D>, ok: D -> bool)
    requires forall d, e :: ok(d) && edit(d, e).Some? ==> ok(edit(d, e).value)
    requires forall i :: 0 <= i < |ds| ==> ok(ds[i])
    ensures forall i :: 0 <= i < |ds| ==> ok(Session(ds, entries, edit)[i])
    decreases |entries|
  {
    if entries != [] {
      var idx := entries[0].0 as int;
      if idx < |ds| && edit(ds[idx], entries[0].1).Some? {
        var d := edit(ds[idx], entries[0].1).value;
        assert ok(d);
        SessionKeeps(ds[idx := d], entries[1..], edit, ok);
      }
    }
  }

  function PortEdit(d: PortD, e: PortEntry): Option<PortD>
  {
    Some(EditPort(d, e))
  }

  function EthdevEdit(d: EthD, e: EthEntry): Option<EthD>
  {
    Some(EditEthdev(d, e))
  }

  /** `setPort` keeps every port description recognised. */
  lemma PortSessionKeepsValid(ps: Ports, entries: seq<(u32, PortEntry)>)
    requires forall i :: 0 <= i < PORT_COUNT ==> ValidPort(ps[i])
    ensures forall i :: 0 <= i < PORT_COUNT ==> ValidPort(Session(ps, entries, PortEdit)[i])
  {
    forall d, e | ValidPort(d)
      ensures ValidPort(EditPort(d, e))
    {
      EditPortKeepsValid(d, e);
    }
    SessionKeeps(ps, entries, PortEdit, ValidPort);
  }

  predicate TypeInRange(d: EthD) { d.kind <= 5 }

  /** The corrected `setEthdev` never leaves a type above 5 behind. */
  lemma EthdevSessionKeepsTypes(ds: EthDevs, entries: seq<(u32, EthEntry)>)
    requires forall i :: 0 <= i < ETHDEV_COUNT ==> ds[i].kind <= 5
    ensures forall i :: 0 <= i < ETHDEV_COUNT ==> Session(ds, entries, EthdevEdit)[i].kind <= 5
  {
    forall d, e | TypeInRange(d)
      ensures TypeInRange(EditEthdev(d, e))
    {
      EditEthdevKeepsTypeInRange(d, e);
    }
    SessionKeeps(ds, entries, EthdevEdit, TypeInRange);
  }

  // ---------------------------------------------------------------------
  // The erased image
  // ---------------------------------------------------------------------

  predicate AllOnes(s: seq<byte>)
  {
    forall i :: 0 <= i < |s| ==> s[i] == 0xff
  }

  lemma AllOnesJoin(a: seq<byte>, b: seq<byte>)
    requires AllOnes(a) && AllOnes(b)
    ensures AllOnes(a + b)
  {
  }

  lemma ErasedScalars(order: ByteOrder)
    ensures AllOnes(Bytes16(0xffff, order))
  {
    assert 0xffff / 256 == 0xff && 0xffff % 256 == 0xff;
  }

  lemma ErasedWord(order: ByteOrder)
    ensures AllOnes(Bytes32(0xffff_ffff, order))
  {
  }

  lemma ErasedModule(order: ByteOrder)
    ensures AllOnes(ModDBytes(ERASED_MODD, order))
  {
    ErasedScalars(order);
    var v := ModVBytes(ERASED_MODV, order);
    AllOnesJoin(Bytes16(0xffff, order), [0xff, 0xff, 0xff, 0xff, 0xff]);
    var d := ERASED_MODD;
    AllOnesJoin([d.location, d.make], d.model);
    AllOnesJoin([d.location, d.make] + d.model, v);
    AllOnesJoin([d.location, d.make] + d.model + v, [d.kind]);
  }

  lemma ErasedEthdev(order: ByteOrder)
    ensures AllOnes(EthDBytes(ERASED_ETHD, order))
  {
    ErasedWord(order);
    var w := Bytes32(0xffff_ffff, order);
    var d := ERASED_ETHD;
    AllOnesJoin([d.kind], w);
    AllOnesJoin([d.kind] + w, d.macAddr);
    AllOnesJoin([d.kind] + w + d.macAddr, w);
    AllOnesJoin([d.kind] + w + d.macAddr + w, w);
    AllOnesJoin([d.kind] + w + d.macAddr + w + w, [d.iface]);
  }

  lemma ErasedFields(order: ByteOrder)
    ensures AllOnes(ModDBytes(ERASED_MODD, order))
    ensures AllOnes(EthDBytes(ERASED_ETHD, order))
    ensures AllOnes(PortDBytes(ERASED_PORTD, order))
  {
    ErasedModule(order);
    ErasedEthdev(order);
    ErasedPort(order);
  }

  lemma ErasedPort(order: ByteOrder)
    ensures AllOnes(PortDBytes(ERASED_PORTD, order))
  {
    ErasedWord(order);
    AllOnesJoin([0xff, 0xff], Bytes32(0xffff_ffff, order));
  }

  lemma {:induction false} ErasedArrays(n: nat, order: ByteOrder)
    ensures AllOnes(ModDArrayBytes(seq(n, _ => ERASED_MODD), order))
    ensures AllOnes(EthDArrayBytes(seq(n, _ => ERASED_ETHD), order))
    ensures AllOnes(PortDArrayBytes(seq(n, _ => ERASED_PORTD), order))
  {
    if n > 0 {
      ErasedArrays(n - 1, order);
      ErasedFields(order);
      assert seq(n, _ => ERASED_MODD)[..n - 1] == seq(n - 1, _ => ERASED_MODD);
      assert seq(n, _ => ERASED_ETHD)[..n - 1] == seq(n - 1, _ => ERASED_ETHD);
      assert seq(n, _ => ERASED_PORTD)[..n - 1] == seq(n - 1, _ => ERASED_PORTD);
    }
  }

  /** `Erased()` is the header whose 256 bytes are all 0xff, in either byte order. */
  lemma ErasedCrc1Region(order: ByteOrder)
    ensures AllOnes(Crc1Region(Erased(), order))
  {
    var h := Erased();
    var f := Bytes16(0xffff, order);
    var ma := ModDArrayBytes(h.moduleDesc, order);
    var ea := EthDArrayBytes(h.ethdev, order);
    var pa := PortDArrayBytes(h.port, order);
    ErasedScalars(order);
    ErasedArrays(4, order);
    ErasedArrays(2, order);
    ErasedArrays(11, order);
    assert h.moduleDesc == seq(4, _ => ERASED_MODD);
    assert h.ethdev == seq(2, _ => ERASED_ETHD);
    var acc: seq<byte> := [0xff];
    AllOnesJoin(acc, f); acc := acc + f;
    AllOnesJoin(acc, [0xff]); acc := acc + [0xff];
    AllOnesJoin(acc, ma); acc := acc + ma;
    AllOnesJoin(acc, [0xff, 0xff, 0xff, 0xff, 0xff]); acc := acc + [0xff, 0xff, 0xff, 0xff, 0xff];
    AllOnesJoin(acc, ea); acc := acc + ea;
    AllOnesJoin(acc, [0xff, 0xff]); acc := acc + [0xff, 0xff];
    AllOnesJoin(acc, f); acc := acc + f;
    AllOnesJoin(acc, [0xff]); acc := acc + [0xff];
    AllOnesJoin(acc, pa); acc := acc + pa;
    AllOnesJoin(acc, f); acc := acc + f;
    AllOnesJoin(acc, f); acc := acc + f;
    AllOnesJoin(acc, f); acc := acc + f;
    AllOnesJoin(acc, f); acc := acc + f;
    AllOnesJoin(acc, [0xff]); acc := acc + [0xff];
    assert acc == Crc1Region(h, order);
  }

  lemma ErasedCrc2Region(order: ByteOrder)
    ensures AllOnes(Crc2Region(Erased(), order))
  {
    var h := Erased();
    var f := Bytes16(0xffff, order);
    ErasedScalars(order);
    AllOnesJoin(h.latitude, h.longitude);
    AllOnesJoin(h.latitude + h.longitude, f);
    AllOnesJoin(h.latitude + h.longitude + f, f);
    AllOnesJoin(h.latitude + h.longitude + f + f, h.resAgency);
  }

  /** `Erased()` is the header whose 256 bytes are all 0xff, in either byte order. */
  lemma ErasedImage(order: ByteOrder)
    ensures Image(Erased(), order) == seq(HEADER_SIZE, _ => 0xff)
  {
    var h := Erased();
    var f := Bytes16(0xffff, order);
    var a, c := Crc1Region(h, order), Crc2Region(h, order);
    ErasedScalars(order);
    ErasedCrc1Region(order);
    ErasedCrc2Region(order);
    AllOnesJoin(a, f);
    AllOnesJoin(a + f, c);
    AllOnesJoin(a + f + c, f);
    AllOnesJoin(a + f + c + f, h.userData);
    assert Image(h, order) == a + f + c + f + h.userData;
  }

  // ---------------------------------------------------------------------
  // eeHdrOps: which operations run, and in which order
  // ---------------------------------------------------------------------

  /** The header operations, in the order `eeHdrOps` tests their flags. */
  datatype HdrOp = Init | Default | Load | Edit | Save | Verify | Print

  const HDR_OP_ORDER: seq<HdrOp> := [Init, Default, Load, Edit, Save, Verify, Print]

  /** The bit of `hdrOps` that requests `op`: `EE_INIT` 0x01, `EE_DEFAULT_HDR` 0x02, `EE_EDIT_HDR` 0x04, `EE_LOAD_HDR` 0x08, `EE_SAVE_HDR` 0x10, `EE_VERIFY_HDR` 0x20, `EE_PRINT_HDR` 0x40. */
  function FlagBit(op: HdrOp): nat
  {
    match op
    case Init => 0
    case Default => 1
    case Edit => 2
    case Load => 3
    case Save => 4
    case Verify => 5
    case Print => 6
  }

  /** The position of `op` in `HDR_OP_ORDER`. */
  function Rank(op: HdrOp): (k: nat)
    ensures k < |HDR_OP_ORDER| && HDR_OP_ORDER[k] == op
  {
    match op
    case Init => 0
    case Default => 1
    case Load => 2
    case Edit => 3
    case Save => 4
    case Verify => 5
    case Print => 6
  }

  function Requested(hdrOps: u16, ops: seq<HdrOp>): seq<HdrOp>
  {
    if ops == [] then []
    else if BitSet(hdrOps as nat, FlagBit(ops[0])) then [ops[0]] + Requested(hdrOps, ops[1..])
    else Requested(hdrOps, ops[1..])
  }

  /** The operations `eeHdrOps(hdrOps, mp, sz)` performs, in order; none when the memory is smaller than the header. */
  function Schedule(hdrOps: u16, sz: nat): (ops: seq<HdrOp>)
    ensures sz < HEADER_SIZE ==> ops == []
  {
    if sz < HEADER_SIZE then [] else Requested(hdrOps, HDR_OP_ORDER)
  }

  /** The requested operations are those of `ops` whose flag is set. */
  lemma {:induction false} RequestedMembers(hdrOps: u16, ops: seq<HdrOp>)
    ensures forall op :: op in Requested(hdrOps, ops) <==> op in ops && BitSet(hdrOps as nat, FlagBit(op))
    decreases |ops|
  {
    if ops != [] {
      RequestedMembers(hdrOps, ops[1..]);
      assert forall op :: op in ops <==> op == ops[0] || op in ops[1..];
    }
  }

  /** `ops` in strictly increasing rank. */
  predicate RankSorted(ops: seq<HdrOp>)
  {
    forall i, j :: 0 <= i < j < |ops| ==> Rank(ops[i]) < Rank(ops[j])
  }

  /** Picking some of the operations keeps their order. */
  lemma {:induction false} RequestedOrdered(hdrOps: u16, ops: seq<HdrOp>)
    requires RankSorted(ops)
    ensures RankSorted(Requested(hdrOps, ops))
    decreases |ops|
  {
    if ops != [] {
      var rest := ops[1..];
      assert RankSorted(rest) by {
        forall i, j | 0 <= i < j < |rest| ensures Rank(rest[i]) < Rank(rest[j]) {
          assert rest[i] == ops[i + 1] && rest[j] == ops[j + 1];
        }
      }
      RequestedOrdered(hdrOps, rest);
      RequestedMembers(hdrOps, rest);
      var r := Requested(hdrOps, rest);
      if BitSet(hdrOps as nat, FlagBit(ops[0])) {
        forall j | 0 <= j < |r| ensures Rank(ops[0]) < Rank(r[j]) {
          assert r[j] in rest;
          var m :| 0 <= m < |rest| && rest[m] == r[j];
          assert rest[m] == ops[m + 1];
        }
        assert RankSorted([ops[0]] + r) by {
          var t := [ops[0]] + r;
          forall i, j | 0 <= i < j < |t| ensures Rank(t[i]) < Rank(t[j]) {
            if i == 0 {
              assert t[j] == r[j - 1];
            } else {
              assert t[i] == r[i - 1] && t[j] == r[j - 1];
            }
          }
        }
      }
    }
  }

  /** Every operation is in the fixed order, at the position its rank says. */
  lemma OrderRanked()
    ensures RankSorted(HDR_OP_ORDER)
    ensures forall op :: op in HDR_OP_ORDER
  {
    forall i | 0 <= i < |HDR_OP_ORDER| ensures Rank(HDR_OP_ORDER[i]) == i {
    }
    forall op: HdrOp ensures op in HDR_OP_ORDER {
      assert HDR_OP_ORDER[Rank(op)] == op;
    }
  }

  /**
   * An operation runs exactly when its flag is set and the memory holds a
   * whole header, and the operations run in the fixed order
   * INIT, DEFAULT, LOAD, EDIT, SAVE, VERIFY, PRINT, each at most once.
   */
  lemma ScheduleMeaning(hdrOps: u16, sz: nat)
    ensures forall op :: op in Schedule(hdrOps, sz) <==> sz >= HEADER_SIZE && BitSet(hdrOps as nat, FlagBit(op))
    ensures forall i, j :: 0 <= i < j < |Schedule(hdrOps, sz)| ==> Rank(Schedule(hdrOps, sz)[i]) < Rank(Schedule(hdrOps, sz)[j])
  {
    if sz >= HEADER_SIZE {
      OrderRanked();
      RequestedMembers(hdrOps, HDR_OP_ORDER);
      RequestedOrdered(hdrOps, HDR_OP_ORDER);
    }
  }

  /** What `eeLoadHdr` finds in the file the user names. */
  datatype LoadResult =
    | LoadFailed                     // open or seek fails, or read returns -1: memory untouched
    | LoadShort(partial: EepromV1)   // fewer than sz bytes read: memory as the short read left it
    | LoadRead(image: EepromV1)      // the whole image read

  /** The state `eeHdrOps` works on: the header memory, the image offered to `eeSaveHdr`, the last verdict, and whether the process exited. */
  datatype OpsState = OpsState(hdr: EepromV1, saved: Option<EepromV1>, verdict: Option<int>, exited: bool)

  /**
   * What the operations depend on besides the header: the byte order, the
   * header DEFAULT writes, what LOAD reads, the editing session as a function
   * of the header, and the verdict of `eeVerifyHdr`.
   */
  datatype OpsEnv = OpsEnv(order: ByteOrder, dflt: EepromV1, load: LoadResult, edit: EepromV1 -> EepromV1, verify: EepromV1 -> int)

  /** The environment of one run of `eeHdrOps`, with `eeVerifyHdr` as the verdict. */
  function Env(order: ByteOrder, load: LoadResult, edit: EepromV1 -> EepromV1): OpsEnv
  {
    OpsEnv(order, DefaultHeader(order), load, edit, h => VerifyHdr(h, order))
  }

  /** One operation of `eeHdrOps`. */
  function Step(op: HdrOp, st: OpsState, env: OpsEnv): OpsState
  {
    match op
    case Init => st.(hdr := Erased())
    case Default => st.(hdr := env.dflt)
    case Load =>
      (match env.load
       case LoadFailed => st
       case LoadShort(p) => st.(hdr := p)
       case LoadRead(img) => st.(hdr := img, exited := env.verify(img) < 0))
    case Edit => st.(hdr := env.edit(st.hdr))
    case Save => if env.verify(st.hdr) < 0 then st else st.(saved := Some(st.hdr))
    case Verify => st.(verdict := Some(env.verify(st.hdr)))
    case Print => st
  }

  /** The operations `ops` in turn, stopping when one exits the process. */
  function Run(ops: seq<HdrOp>, st: OpsState, env: OpsEnv): OpsState
    decreases |ops|
  {
    if ops == [] || st.exited then st else Run(ops[1..], Step(ops[0], st, env), env)
  }

  lemma StepSavesVerified(op: HdrOp, st: OpsState, env: OpsEnv)
    requires st.saved.Some? ==> env.verify(st.saved.value) >= 0
    ensures var r := Step(op, st, env);
      r.saved.Some? ==> env.verify(r.saved.value) >= 0
  {
    if op == Save {
      assert Step(op, st, env).saved == if env.verify(st.hdr) < 0 then st.saved else Some(st.hdr);
    } else {
      assert Step(op, st, env).saved == st.saved;
    }
  }

  /** `eeSaveHdr` only ever offers an image that verifies. */
  lemma {:induction false} RunSavesVerified(ops: seq<HdrOp>, st: OpsState, env: OpsEnv)
    requires st.saved.Some? ==> env.verify(st.saved.value) >= 0
    ensures var r := Run(ops, st, env);
      r.saved.Some? ==> env.verify(r.saved.value) >= 0
    decreases |ops|
  {
    if ops != [] && !st.exited {
      StepSavesVerified(ops[0], st, env);
      RunSavesVerified(ops[1..], Step(ops[0], st, env), env);
    }
  }

  lemma {:induction false} RequestedAppend(hdrOps: u16, a: seq<HdrOp>, b: seq<HdrOp>)
    ensures Requested(hdrOps, a + b) == Requested(hdrOps, a) + Requested(hdrOps, b)
    decreases |a|
  {
    if a != [] {
      assert (a + b)[0] == a[0] && (a + b)[1..] == a[1..] + b;
      RequestedAppend(hdrOps, a[1..], b);
      var x, y := Requested(hdrOps, a[1..]), Requested(hdrOps, b);
      assert [a[0]] + x + y == [a[0]] + (x + y);
    } else {
      assert a + b == b;
    }
  }

  lemma {:induction false} RunAppend(a: seq<HdrOp>, b: seq<HdrOp>, st: OpsState, env: OpsEnv)
    ensures Run(a + b, st, env) == Run(b, Run(a, st, env), env)
    decreases |a|
  {
    if a == [] {
      assert a + b == b;
    } else if !st.exited {
      assert (a + b)[1..] == a[1..] + b;
      RunAppend(a[1..], b, Step(a[0], st, env), env);
    }
  }

  /** One flag test of `eeHdrOps`: the first operation of `ops` runs when its flag is set. */
  lemma Advance(hdrOps: u16, ops: seq<HdrOp>, st: OpsState, env: OpsEnv)
    requires ops != [] && !st.exited
    ensures Run(Requested(hdrOps, ops), st, env) ==
      Run(Requested(hdrOps, ops[1..]),
          if BitSet(hdrOps as nat, FlagBit(ops[0])) then Step(ops[0], st, env) else st, env)
  {
  }

  /** `Advance` as the operation of `step` when its flag is set. */
  function Flagged(hdrOps: u16, op: HdrOp, st: OpsState, env: OpsEnv): OpsState
  {
    if BitSet(hdrOps as nat, FlagBit(op)) then Step(op, st, env) else st
  }

  /** `Advance` at position `k` of the fixed order. */
  lemma AdvanceAt(hdrOps: u16, k: nat, st: OpsState, env: OpsEnv)
    requires k < |HDR_OP_ORDER| && !st.exited
    ensures Run(Requested(hdrOps, HDR_OP_ORDER[k..]), st, env) ==
      Run(Requested(hdrOps, HDR_OP_ORDER[k + 1..]), Flagged(hdrOps, HDR_OP_ORDER[k], st, env), env)
  {
    assert HDR_OP_ORDER[k..][0] == HDR_OP_ORDER[k] && HDR_OP_ORDER[k..][1..] == HDR_OP_ORDER[k + 1..];
    Advance(hdrOps, HDR_OP_ORDER[k..], st, env);
  }

  /** The state after the operations that produce the header: INIT, DEFAULT, LOAD and EDIT. */
  function Prepared(hdrOps: u16, st: OpsState, env: OpsEnv): OpsState
  {
    Run(Requested(hdrOps, HDR_OP_ORDER[..4]), st, env)
  }

  /**
   * The scheduled run splits into the operations that produce the header
   * and the ones that save, verify and print it.
   */
  lemma ScheduleSplit(hdrOps: u16, sz: nat, st: OpsState, env: OpsEnv)
    requires sz >= HEADER_SIZE
    ensures Run(Schedule(hdrOps, sz), st, env) ==
      Run(Requested(hdrOps, [Save, Verify, Print]), Prepared(hdrOps, st, env), env)
  {
    assert HDR_OP_ORDER == HDR_OP_ORDER[..4] + [Save, Verify, Print];
    RequestedAppend(hdrOps, HDR_OP_ORDER[..4], [Save, Verify, Print]);
    RunAppend(Requested(hdrOps, HDR_OP_ORDER[..4]), Requested(hdrOps, [Save, Verify, Print]), st, env);
  }

  /**
   * SAVE, VERIFY and PRINT leave the header as it is; the image is offered
   * for saving when SAVE is requested and the header verifies, and VERIFY
   * records the verdict.
   */
  lemma RunFinish(hdrOps: u16, st: OpsState, env: OpsEnv)
    requires !st.exited && st.saved == None && st.verdict == None
    ensures var r := Run(Requested(hdrOps, [Save, Verify, Print]), st, env);
      r.hdr == st.hdr && !r.exited &&
      r.saved == (if BitSet(hdrOps as nat, FlagBit(Save)) && env.verify(st.hdr) >= 0 then Some(st.hdr) else None) &&
      r.verdict == (if BitSet(hdrOps as nat, FlagBit(Verify)) then Some(env.verify(st.hdr)) else None)
  {
    var ops := [Save, Verify, Print];
    var s1 := Flagged(hdrOps, Save, st, env);
    var s2 := Flagged(hdrOps, Verify, s1, env);
    var s3 := Flagged(hdrOps, Print, s2, env);
    Advance(hdrOps, ops, st, env);
    Advance(hdrOps, ops[1..], s1, env);
    Advance(hdrOps, ops[2..], s2, env);
    assert ops[1..][1..] == ops[2..] && ops[2..][1..] == [];
  }

  /** A file image that fails to verify ends the program: nothing after LOAD runs. */
  lemma PreparedExits(hdrOps: u16, st: OpsState, env: OpsEnv)
    requires !st.exited
    ensures var r := Prepared(hdrOps, st, env);
      r.saved == st.saved && r.verdict == st.verdict &&
      (r.exited <==> BitSet(hdrOps as nat, FlagBit(Load)) && env.load.LoadRead? && env.verify(env.load.image) < 0) &&
      (r.exited ==> r.hdr == env.load.image)
  {
    PreparedSteps(hdrOps, st, env);
  }

  /** The four flag tests that produce the header, one after the other. */
  lemma PreparedSteps(hdrOps: u16, st: OpsState, env: OpsEnv)
    requires !st.exited
    ensures var s1 := Flagged(hdrOps, Init, st, env);
      var s2 := Flagged(hdrOps, Default, s1, env);
      var s3 := Flagged(hdrOps, Load, s2, env);
      Prepared(hdrOps, st, env) == (if s3.exited then s3 else Flagged(hdrOps, Edit, s3, env))
  {
    var ops := HDR_OP_ORDER[..4];
    assert ops == [Init, Default, Load, Edit];
    var s1 := Flagged(hdrOps, Init, st, env);
    var s2 := Flagged(hdrOps, Default, s1, env);
    var s3 := Flagged(hdrOps, Load, s2, env);
    Advance(hdrOps, ops, st, env);
    Advance(hdrOps, ops[1..], s1, env);
    Advance(hdrOps, ops[2..], s2, env);
    assert ops[1..][1..] == ops[2..] && ops[2..][1..] == ops[3..] && ops[3..] == [Edit];
    if !s3.exited {
      Advance(hdrOps, ops[3..], s3, env);
      assert ops[3..][1..] == [];
    }
  }

  /** Without LOAD and EDIT, DEFAULT decides the header, and INIT alone leaves it erased. */
  lemma PreparedHeader(hdrOps: u16, st: OpsState, env: OpsEnv)
    requires !st.exited
    requires !BitSet(hdrOps as nat, FlagBit(Load)) && !BitSet(hdrOps as nat, FlagBit(Edit))
    ensures var r := Prepared(hdrOps, st, env);
      r.hdr == (if BitSet(hdrOps as nat, FlagBit(Default)) then env.dflt
                else if BitSet(hdrOps as nat, FlagBit(Init)) then Erased() else st.hdr)
  {
    PreparedSteps(hdrOps, st, env);
  }

  /** The initial state of `eeHdrOps`: the memory as given, nothing saved, no verdict. */
  function Start(h: EepromV1): OpsState
  {
    OpsState(h, None, None, false)
  }

  /**
   * `-d -v` (and `-d -s -v`) on a large enough memory: the default header is
   * built, verifies with 0, and is what is offered for saving.
   */
  lemma DefaultThenVerify(hdrOps: u16, sz: nat, h: EepromV1, order: ByteOrder, load: LoadResult, edit: EepromV1 -> EepromV1)
    requires sz >= HEADER_SIZE && BitSet(hdrOps as nat, FlagBit(Default))
    requires !BitSet(hdrOps as nat, FlagBit(Load)) && !BitSet(hdrOps as nat, FlagBit(Edit))
    ensures var r := Run(Schedule(hdrOps, sz), Start(h), Env(order, load, edit));
      r.hdr == DefaultHeader(order) && !r.exited &&
      (BitSet(hdrOps as nat, FlagBit(Verify)) ==> r.verdict == Some(0)) &&
      (BitSet(hdrOps as nat, FlagBit(Save)) ==> r.saved == Some(DefaultHeader(order)))
  {
    var env := Env(order, load, edit);
    ScheduleSplit(hdrOps, sz, Start(h), env);
    PreparedExits(hdrOps, Start(h), env);
    PreparedHeader(hdrOps, Start(h), env);
    RunFinish(hdrOps, Prepared(hdrOps, Start(h), env), env);
    DefaultHeaderVerifies(order);
  }

  /** INIT without DEFAULT, LOAD and EDIT leaves every byte of the header 0xff, and that is what SAVE and VERIFY see. */
  lemma InitErases(hdrOps: u16, sz: nat, h: EepromV1, order: ByteOrder, load: LoadResult, edit: EepromV1 -> EepromV1)
    requires sz >= HEADER_SIZE && BitSet(hdrOps as nat, FlagBit(Init)) && !BitSet(hdrOps as nat, FlagBit(Default))
    requires !BitSet(hdrOps as nat, FlagBit(Load)) && !BitSet(hdrOps as nat, FlagBit(Edit))
    ensures var r := Run(Schedule(hdrOps, sz), Start(h), Env(order, load, edit));
      Image(r.hdr, order) == seq(HEADER_SIZE, _ => 0xff) &&
      (BitSet(hdrOps as nat, FlagBit(Verify)) ==> r.verdict == Some(VerifyHdr(Erased(), order)))
  {
    var env := Env(order, load, edit);
    ScheduleSplit(hdrOps, sz, Start(h), env);
    PreparedExits(hdrOps, Start(h), env);
    PreparedHeader(hdrOps, Start(h), env);
    RunFinish(hdrOps, Prepared(hdrOps, Start(h), env), env);
    ErasedImage(order);
  }

  /** A loaded image that fails to verify ends the program before anything is saved or verified. */
  lemma BadLoadAborts(hdrOps: u16, sz: nat, h: EepromV1, order: ByteOrder, img: EepromV1, edit: EepromV1 -> EepromV1)
    requires sz >= HEADER_SIZE && BitSet(hdrOps as nat, FlagBit(Load)) && VerifyHdr(img, order) < 0
    ensures var r := Run(Schedule(hdrOps, sz), Start(h), Env(order, LoadRead(img), edit));
      r.exited && r.hdr == img && r.saved == None && r.verdict == None
  {
    var env := Env(order, LoadRead(img), edit);
    ScheduleSplit(hdrOps, sz, Start(h), env);
    PreparedExits(hdrOps, Start(h), env);
    var p := Prepared(hdrOps, Start(h), env);
    var rest := Requested(hdrOps, [Save, Verify, Print]);
    assert Run(rest, p, env) == p;
  }

  // ---------------------------------------------------------------------
  // The header being edited
  // ---------------------------------------------------------------------

  /** The header buffer the tool works on, in the byte order of the target. */
  class Header {
    var hdr: EepromV1
    const order: ByteOrder

    constructor (h: EepromV1, order: ByteOrder)
      ensures hdr == h && this.order == order
    {
      hdr := h;
      this.order := order;
    }

    /** `setCrc1`. */
    method SetCrc1() returns (fcs: u16)
      modifies this
      ensures hdr == WithCrc1(old(hdr), order) && fcs == hdr.crc1
    {
      fcs := CrcValue(FitCrc.GenCrc(Crc1Region(hdr, order)));
      hdr := hdr.(crc1 := fcs);
    }

    /** `setCrc2`. */
    method SetCrc2() returns (fcs: u16)
      modifies this
      ensures hdr == WithCrc2(old(hdr), order) && fcs == hdr.crc2
    {
      fcs := CrcValue(FitCrc.GenCrc(Crc2Region(hdr, order)));
      hdr := hdr.(crc2 := fcs);
    }

    /** `setPorts`, as intended. */
    method SetPortCount()
      modifies this
      ensures hdr == SetPorts(old(hdr))
    {
      hdr := hdr.(ports := PORT_COUNT as byte);
    }

    /** `setCom_drop`, as intended. */
    method SetComDropField(v: u32)
      modifies this
      ensures hdr == SetComDrop(old(hdr), v)
    {
      hdr := hdr.(comDrop := U16(v as int) as u16);
    }

    /** `setPortmap` on one of the five maps: each selection 1 to 11 sets its bit, anything else ends the loop. */
    method SetPortmap(f: PortmapField, sels: seq<u32>)
      modifies this
      ensures hdr == SetMap(old(hdr), f, SetPortmapFrom(GetMap(old(hdr), f), sels))
    {
      ghost var h0 := hdr;
      ghost var target := SetPortmapFrom(GetMap(hdr, f), sels);
      var k := 0;
      var loopOn := true;
      while loopOn && k < |sels|
        invariant 0 <= k <= |sels|
        invariant hdr == SetMap(h0, f, GetMap(hdr, f))
        invariant target == if loopOn then SetPortmapFrom(GetMap(hdr, f), sels[k..]) else GetMap(hdr, f)
        decreases |sels| - k
      {
        var idx := sels[k];
        if IsPortSelection(idx) {
          var cur := GetMap(hdr, f) as int;
          assert sels[k..][1..] == sels[k + 1..];
          Pow2Sixteen();
          SetBitBound(cur, idx as int - 1, 16);
          hdr := SetMap(hdr, f, SetBit(cur, idx as int - 1) as u16);
        } else {
          loopOn := false;
        }
        k := k + 1;
      }
    }

    /** `setModule`: the module descriptions after the session `entries`. */
    method SetModule(entries: seq<(u32, ModuleEntry)>)
      modifies this
      ensures hdr == old(hdr).(moduleDesc := Session(old(hdr.moduleDesc), entries, EditModule))
    {
      ghost var h0 := hdr;
      var k := 0;
      var loopOn := true;
      while loopOn && k < |entries|
        invariant 0 <= k <= |entries|
        invariant hdr == h0.(moduleDesc := hdr.moduleDesc)
        invariant Session(h0.moduleDesc, entries, EditModule) ==
          if loopOn then Session(hdr.moduleDesc, entries[k..], EditModule) else hdr.moduleDesc
        decreases |entries| - k
      {
        var idx := entries[k].0;
        if idx >= MODULE_COUNT as u32 {
          loopOn := false;
        } else {
          match EditModule(hdr.moduleDesc[idx], entries[k].1)
          case None =>
            loopOn := false;
          case Some(d) =>
            hdr := hdr.(moduleDesc := hdr.moduleDesc[idx as int := d]);
        }
        k := k + 1;
      }
    }

    /** `setEthdev`, as intended: the Ethernet descriptions after the session `entries`. */
    method SetEthdev(entries: seq<(u32, EthEntry)>)
      modifies this
      ensures hdr == old(hdr).(ethdev := Session(old(hdr.ethdev), entries, EthdevEdit))
    {
      ghost var h0 := hdr;
      var k := 0;
      var loopOn := true;
      while loopOn && k < |entries|
        invariant 0 <= k <= |entries|
        invariant hdr == h0.(ethdev := hdr.ethdev)
        invariant Session(h0.ethdev, entries, EthdevEdit) ==
          if loopOn then Session(hdr.ethdev, entries[k..], EthdevEdit) else hdr.ethdev
        decreases |entries| - k
      {
        var idx := entries[k].0;
        if idx >= ETHDEV_COUNT as u32 {
          loopOn := false;
        } else {
          hdr := hdr.(ethdev := hdr.ethdev[idx as int := EditEthdev(hdr.ethdev[idx], entries[k].1)]);
        }
        k := k + 1;
      }
    }

    /** `setPort`: the port descriptions after the session `entries`. */
    method SetPort(entries: seq<(u32, PortEntry)>)
      modifies this
      ensures hdr == old(hdr).(port := Session(old(hdr.port), entries, PortEdit))
    {
      ghost var h0 := hdr;
      var k := 0;
      var loopOn := true;
      while loopOn && k < |entries|
        invariant 0 <= k <= |entries|
        invariant hdr == h0.(port := hdr.port)
        invariant Session(h0.port, entries, PortEdit) ==
          if loopOn then Session(hdr.port, entries[k..], PortEdit) else hdr.port
        decreases |entries| - k
      {
        var idx := entries[k].0;
        if idx >= PORT_COUNT as u32 {
          loopOn := false;
        } else {
          hdr := hdr.(port := hdr.port[idx as int := EditPort(hdr.port[idx], entries[k].1)]);
        }
        k := k + 1;
      }
    }

    /** `eeDefaultHdr`: the default fields, then the two CRCs, copied into the buffer. */
    method SetDefault()
      modifies this
      ensures hdr == DefaultHeader(order)
    {
      var d := DefaultFields();
      d := d.(crc1 := Crc1Of(d, order));
      d := d.(crc2 := Crc2Of(d, order));
      hdr := d;
    }

    /**
     * `eeHdrOps(hdrOps, mp, sz)`: the requested operations in their fixed
     * order, on a memory of `sz` bytes. Returns the image offered to the save
     * file, the verdict of VERIFY, and whether a loaded image that failed to
     * verify ended the program.
     */
    method HdrOps(hdrOps: u16, sz: nat, load: LoadResult, edit: EepromV1 -> EepromV1)
      returns (saved: Option<EepromV1>, verdict: Option<int>, exited: bool)
      modifies this
      ensures OpsState(hdr, saved, verdict, exited) == Run(Schedule(hdrOps, sz), Start(old(hdr)), Env(order, load, edit))
    {
      saved, verdict, exited := None, None, false;
      if sz < HEADER_SIZE {
        return;
      }
      ghost var env := Env(order, load, edit);
      ghost var h0 := hdr;
      ScheduleSplit(hdrOps, sz, Start(h0), env);
      exited := Prepare(hdrOps, load, edit);
      if exited {
        return;
      }
      saved, verdict := Finish(hdrOps, load, edit);
    }

    /** The flag tests of `eeHdrOps` that produce the header: INIT, DEFAULT, LOAD, EDIT. */
    method Prepare(hdrOps: u16, load: LoadResult, edit: EepromV1 -> EepromV1) returns (exited: bool)
      modifies this
      ensures OpsState(hdr, None, None, exited) == Prepared(hdrOps, Start(old(hdr)), Env(order, load, edit))
    {
      PreparedSteps(hdrOps, Start(hdr), Env(order, load, edit));
      exited := PrepareStep(hdrOps, Init, load, edit);
      exited := PrepareStep(hdrOps, Default, load, edit);
      exited := PrepareStep(hdrOps, Load, load, edit);
      if exited {
        return;
      }
      exited := PrepareStep(hdrOps, Edit, load, edit);
    }

    /** One flag test of INIT, DEFAULT, LOAD or EDIT. */
    method PrepareStep(hdrOps: u16, op: HdrOp, load: LoadResult, edit: EepromV1 -> EepromV1) returns (exited: bool)
      requires op in {Init, Default, Load, Edit}
      modifies this
      ensures OpsState(hdr, None, None, exited) == Flagged(hdrOps, op, Start(old(hdr)), Env(order, load, edit))
    {
      exited := false;
      if !BitSet(hdrOps as nat, FlagBit(op)) {
        return;
      }
      if op == Init {
        hdr := Erased();
      } else if op == Default {
        SetDefault();
      } else if op == Load {
        match load
        case LoadFailed =>
        case LoadShort(p) =>
          hdr := p;
        case LoadRead(img) =>
          hdr := img;
          exited := VerifyHdr(img, order) < 0;
      } else {
        hdr := edit(hdr);
      }
    }

    /** The flag tests of `eeHdrOps` that use the header: SAVE, VERIFY, PRINT. */
    method Finish(hdrOps: u16, ghost load: LoadResult, ghost edit: EepromV1 -> EepromV1)
      returns (saved: Option<EepromV1>, verdict: Option<int>)
      ensures OpsState(hdr, saved, verdict, false) == Run(Requested(hdrOps, [Save, Verify, Print]), Start(hdr), Env(order, load, edit))
    {
      RunFinish(hdrOps, Start(hdr), Env(order, load, edit));
      saved := None;
      if BitSet(hdrOps as nat, FlagBit(Save)) && VerifyHdr(hdr, order) >= 0 {
        saved := Some(hdr);
      }
      verdict := None;
      if BitSet(hdrOps as nat, FlagBit(Verify)) {
        verdict := Some(VerifyHdr(hdr, order));
      }
    }
  }
}
