/**
 * The ATC 5.2b host EEPROM header `eeprom_v1` of `eepromFit.h`, as a value and
 * as the 256 bytes it occupies under `#pragma pack(1)`. The header fixes the
 * variable parts of the standard record: four module descriptions of 18 bytes,
 * two Ethernet descriptions of 20 bytes and eleven port descriptions of 6 bytes.
 * Multi-byte fields are stored in the byte order of the target, which is a
 * parameter here.
 */
module EepromLayout {
  import opened FitTypes

  type Bytes4 = s: seq<byte> | |s| == 4 witness [0, 0, 0, 0]
  type Bytes6 = s: seq<byte> | |s| == 6 witness [0, 0, 0, 0, 0, 0]
  type Bytes8 = s: seq<byte> | |s| == 8 witness [0, 0, 0, 0, 0, 0, 0, 0]
  type Bytes35 = s: seq<byte> | |s| == 35 witness seq(35, _ => 0)

  /** `mod_v`: the BCD version stamp of a module. */
  datatype ModV = ModV(yearBcd: u16, monBcd: byte, dayBcd: byte, majorBcd: byte, minorBcd: byte, patchBcd: byte)

  /** `mod_d`: one module description; `model` is the 8-byte, NUL-padded model string. */
  datatype ModD = ModD(location: byte, make: byte, model: Bytes8, version: ModV, kind: byte)

  /** `eth_d`: one Ethernet device description. */
  datatype EthD = EthD(kind: byte, ipAddr: bv32, macAddr: Bytes6, ipMask: bv32, ipGate: bv32, iface: byte)

  /** `port_d`: one I/O port description. */
  datatype PortD = PortD(id: byte, mode: byte, speed: bv32)

  const MODULE_COUNT: nat := 4
  const ETHDEV_COUNT: nat := 2
  const PORT_COUNT: nat := 11

  const NO_MODD := ModD(0, 0, [0, 0, 0, 0, 0, 0, 0, 0], ModV(0, 0, 0, 0, 0, 0), 0)
  const NO_ETHD := EthD(0, 0, [0, 0, 0, 0, 0, 0], 0, 0, 0)
  const NO_PORTD := PortD(0, 0, 0)

  type Modules = s: seq<ModD> | |s| == MODULE_COUNT witness [NO_MODD, NO_MODD, NO_MODD, NO_MODD]
  type EthDevs = s: seq<EthD> | |s| == ETHDEV_COUNT witness [NO_ETHD, NO_ETHD]
  type Ports = s: seq<PortD> | |s| == PORT_COUNT witness seq(11, _ => NO_PORTD)

  /**
   * `eeprom_v1`. The float32 `latitude` and `longitude` are kept as their four
   * raw bytes in memory order; a `portmap` is its 16-bit `ports` view.
   */
  datatype EepromV1 = EepromV1(
    version: byte, size: u16, modules: byte, moduleDesc: Modules,
    tLines: byte, tCols: byte, gRows0: byte, gCols0: byte,
    ethdevs: byte, ethdev: EthDevs, spi3use: byte, spi4use: byte,
    portsUsed: u16, ports: byte, port: Ports,
    portsPres: u16, sb1: u16, sb2: u16, ts2: u16, expbus: byte, crc1: u16,
    latitude: Bytes4, longitude: Bytes4, contrId: u16, comDrop: u16,
    resAgency: Bytes35, crc2: u16, userData: Bytes4)

  // ---------------------------------------------------------------------
  // Memory images
  // ---------------------------------------------------------------------

  function ModVBytes(v: ModV, order: ByteOrder): (r: seq<byte>)
    ensures |r| == 7
  {
    Bytes16(v.yearBcd, order) + [v.monBcd, v.dayBcd, v.majorBcd, v.minorBcd, v.patchBcd]
  }

  function ModDBytes(d: ModD, order: ByteOrder): (r: seq<byte>)
    ensures |r| == 18
  {
    [d.location, d.make] + d.model + ModVBytes(d.version, order) + [d.kind]
  }

  function EthDBytes(d: EthD, order: ByteOrder): (r: seq<byte>)
    ensures |r| == 20
  {
    [d.kind] + Bytes32(d.ipAddr, order) + d.macAddr + Bytes32(d.ipMask, order) +
    Bytes32(d.ipGate, order) + [d.iface]
  }

  function PortDBytes(d: PortD, order: ByteOrder): (r: seq<byte>)
    ensures |r| == 6
  {
    [d.id, d.mode] + Bytes32(d.speed, order)
  }

  /** The images of an array of module descriptions, back to back. */
  function ModDArrayBytes(ds: seq<ModD>, order: ByteOrder): (r: seq<byte>)
    ensures |r| == 18 * |ds|
  {
    if ds == [] then [] else ModDArrayBytes(ds[..|ds| - 1], order) + ModDBytes(ds[|ds| - 1], order)
  }

  function EthDArrayBytes(ds: seq<EthD>, order: ByteOrder): (r: seq<byte>)
    ensures |r| == 20 * |ds|
  {
    if ds == [] then [] else EthDArrayBytes(ds[..|ds| - 1], order) + EthDBytes(ds[|ds| - 1], order)
  }

  function PortDArrayBytes(ds: seq<PortD>, order: ByteOrder): (r: seq<byte>)
    ensures |r| == 6 * |ds|
  {
    if ds == [] then [] else PortDArrayBytes(ds[..|ds| - 1], order) + PortDBytes(ds[|ds| - 1], order)
  }

  /** Bytes `[0, offsetof(crc1))`: everything the first CRC covers. */
  function Crc1Region(h: EepromV1, order: ByteOrder): (r: seq<byte>)
    ensures |r| == CRC1_OFFSET
  {
    [h.version] + Bytes16(h.size, order) + [h.modules] + ModDArrayBytes(h.moduleDesc, order) +
    [h.tLines, h.tCols, h.gRows0, h.gCols0, h.ethdevs] + EthDArrayBytes(h.ethdev, order) +
    [h.spi3use, h.spi4use] + Bytes16(h.portsUsed, order) + [h.ports] + PortDArrayBytes(h.port, order) +
    Bytes16(h.portsPres, order) + Bytes16(h.sb1, order) + Bytes16(h.sb2, order) + Bytes16(h.ts2, order) +
    [h.expbus]
  }

  /** Bytes `[offsetof(latitude), offsetof(crc2))`: everything the second CRC covers. */
  function Crc2Region(h: EepromV1, order: ByteOrder): (r: seq<byte>)
    ensures |r| == CRC2_OFFSET - LATITUDE_OFFSET
  {
    h.latitude + h.longitude + Bytes16(h.contrId, order) + Bytes16(h.comDrop, order) + h.resAgency
  }

  /** The 256-byte memory image of the header. */
  function Image(h: EepromV1, order: ByteOrder): (r: seq<byte>)
    ensures |r| == HEADER_SIZE
    ensures r[..CRC1_OFFSET] == Crc1Region(h, order)
    ensures r[CRC1_OFFSET..LATITUDE_OFFSET] == Bytes16(h.crc1, order)
    ensures r[LATITUDE_OFFSET..CRC2_OFFSET] == Crc2Region(h, order)
    ensures r[CRC2_OFFSET..USER_DATA_OFFSET] == Bytes16(h.crc2, order)
    ensures r[USER_DATA_OFFSET..] == h.userData
  {
    var a := Crc1Region(h, order);
    var b := Bytes16(h.crc1, order);
    var c := Crc2Region(h, order);
    var d := Bytes16(h.crc2, order);
    var r := a + b + c + d + h.userData;
    assert r[..CRC1_OFFSET] == a;
    assert r[CRC1_OFFSET..LATITUDE_OFFSET] == b;
    assert r[LATITUDE_OFFSET..CRC2_OFFSET] == c;
    assert r[CRC2_OFFSET..USER_DATA_OFFSET] == d;
    assert r[USER_DATA_OFFSET..] == h.userData;
    r
  }

  // ---------------------------------------------------------------------
  // Offsets
  // ---------------------------------------------------------------------

  /** `offsetof(eeprom_v1, crc1)`. */
  const CRC1_OFFSET: nat := 201
  /** `offsetof(eeprom_v1, latitude)`: the "203 bytes to here" mark. */
  const LATITUDE_OFFSET: nat := 203
  /** `offsetof(eeprom_v1, crc2)`. */
  const CRC2_OFFSET: nat := 250
  /** `offsetof(eeprom_v1, user_data)`: the "252 bytes to here" mark. */
  const USER_DATA_OFFSET: nat := 252
  /** `sizeof(eeprom_v1)`. */
  const HEADER_SIZE: nat := 256
}
