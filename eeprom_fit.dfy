/**
 * The header logic of `eepromFit.c`: the BCD converters, the field editors of
 * the interactive header editor, the two CRCs and their check, the Siemens
 * default header and the order in which the command-line operations run.
 * The interactive prompts are replaced by the values the user would type.
 */
module EepromFit {
  import opened FitTypes
  import opened EepromLayout
  import FitCrc

  // ---------------------------------------------------------------------
  // BCD
  // ---------------------------------------------------------------------

  /** Two BCD digits: each nibble is a decimal digit. */
  predicate IsBcd2(b: int)
  {
    0 <= b < 256 && b / 16 < 10 && b % 16 < 10
  }

  /** The number two BCD digits stand for. */
  function Bcd2Value(b: int): int
  {
    b / 16 * 10 + b % 16
  }

  lemma Nibbles(hi: int, lo: int)
    requires 0 <= lo < 16 && 0 <= hi
    ensures (hi * 16 + lo) / 16 == hi && (hi * 16 + lo) % 16 == lo
  {
  }

  lemma TwoDigits(n: int)
    requires 0 <= n
    ensures n % 100 == n % 100 / 10 * 10 + n % 10
  {
    ModMod(n, 10);
  }

  /**
   * `to2digitBCD`: the input truncated to 8 bits, reduced modulo 100 and
   * written as two BCD digits.
   */
  function To2DigitBcd(input: u32): (r: byte)
    ensures IsBcd2(r as int)
    ensures Bcd2Value(r as int) == input as int % 256 % 100
  {
    var binary := input as int % 256;
    var tens, units := binary % 100 / 10, binary % 10;
    Nibbles(tens, units);
    TwoDigits(binary);
    (tens * 16 + units) as byte
  }

  /** Below 100, the two digits read back as the input; below 10 the code is the number itself. */
  lemma To2DigitBcdRoundTrip(n: u32)
    requires n < 100
    ensures Bcd2Value(To2DigitBcd(n) as int) == n as int
    ensures n < 10 ==> To2DigitBcd(n) as int == n as int
  {
  }

  /** A number typed with two digits is stored with those digits, one per nibble. */
  lemma To2DigitBcdDigits(n: u32, tens: int, units: int)
    requires 0 <= tens < 10 && 0 <= units < 10 && n as int == tens * 10 + units
    ensures To2DigitBcd(n) as int == tens * 16 + units
  {
    DivModUnique(n as int, 256, 0, n as int);
    DivModUnique(n as int, 100, 0, n as int);
    DivModUnique(n as int, 10, tens, units);
  }

  /** Four BCD digits. */
  predicate IsBcd4(v: int)
  {
    0 <= v < 0x1_0000 && v / 0x1000 < 10 && v / 0x100 % 16 < 10 && v / 0x10 % 16 < 10 && v % 16 < 10
  }

  /** The number four BCD digits stand for. */
  function Bcd4Value(v: int): int
  {
    v / 0x1000 * 1000 + v / 0x100 % 16 * 100 + v / 0x10 % 16 * 10 + v % 16
  }

  lemma FourNibbles(d3: int, d2: int, d1: int, d0: int)
    requires 0 <= d3 < 16 && 0 <= d2 < 16 && 0 <= d1 < 16 && 0 <= d0 < 16
    ensures var v := d3 * 0x1000 + d2 * 0x100 + d1 * 0x10 + d0;
      v / 0x1000 == d3 && v / 0x100 % 16 == d2 && v / 0x10 % 16 == d1 && v % 16 == d0
  {
    var v := d3 * 0x1000 + d2 * 0x100 + d1 * 0x10 + d0;
    assert v / 0x10 == d3 * 0x100 + d2 * 0x10 + d1;
    assert v / 0x100 == d3 * 0x10 + d2;
  }

  lemma FourDigits(n: int)
    requires 0 <= n
    ensures n % 10000 == n % 10000 / 1000 * 1000 + n % 1000 / 100 * 100 + n % 100 / 10 * 10 + n % 10
  {
    ModMod(n, 1000);
    ModMod(n, 100);
    ModMod(n, 10);
  }

  /**
   * `to4digitBCD` as written: the thousands, hundreds and tens digits of the
   * input (truncated to 16 bits) are each shifted by only four bits and
   * added, so the result is not packed BCD.
   */
  function To4DigitBcdAsWritten(input: u32): (r: u16)
  {
    var binary := input as int % 0x1_0000;
    (binary % 10000 / 1000 * 16 + binary % 1000 / 100 * 16 + binary % 100 / 10 * 16 + binary % 10) as u16
  }

  /** The decimal digits of a number below 10000. */
  lemma DecimalDigits(y: int, d3: int, d2: int, d1: int, d0: int)
    requires 0 <= d3 < 10 && 0 <= d2 < 10 && 0 <= d1 < 10 && 0 <= d0 < 10
    requires y == d3 * 1000 + d2 * 100 + d1 * 10 + d0
    ensures y % 0x1_0000 == y && y % 10000 == y
    ensures y % 10000 / 1000 == d3 && y % 1000 / 100 == d2 && y % 100 / 10 == d1 && y % 10 == d0
  {
    DivModUnique(y, 0x1_0000, 0, y);
    DivModUnique(y, 10000, 0, y);
    DivModUnique(y, 1000, d3, d2 * 100 + d1 * 10 + d0);
    DivModUnique(y % 1000, 100, d2, d1 * 10 + d0);
    DivModUnique(y, 100, d3 * 10 + d2, d1 * 10 + d0);
    DivModUnique(y % 100, 10, d1, d0);
    DivModUnique(y, 10, d3 * 100 + d2 * 10 + d1, d0);
  }

  /** The year 2017 typed at the menu is stored as 0x37, which reads back as 37. */
  lemma To4DigitBcdAsWrittenLosesDigits()
    ensures To4DigitBcdAsWritten(2017) == 0x37
    ensures Bcd4Value(To4DigitBcdAsWritten(2017) as int) == 37
  {
    DecimalDigits(2017, 2, 0, 1, 7);
  }

  /** For every input with a non-zero thousands digit, the result differs from packed BCD. */
  lemma To4DigitBcdAsWrittenNeverPacked(input: u32)
    requires input as int % 0x1_0000 % 10000 >= 1000
    ensures To4DigitBcdAsWritten(input) as int != To4DigitBcd(input) as int
  {
    var binary := input as int % 0x1_0000;
    assert binary % 10000 / 1000 >= 1;
    assert To4DigitBcdAsWritten(input) as int < 0x1000;
  }

  /** `to4digitBCD` as intended: the four decimal digits packed one per nibble. */
  function To4DigitBcd(input: u32): (r: u16)
    ensures IsBcd4(r as int)
    ensures Bcd4Value(r as int) == input as int % 0x1_0000 % 10000
  {
    var binary := input as int % 0x1_0000;
    var d3, d2, d1, d0 := binary % 10000 / 1000, binary % 1000 / 100, binary % 100 / 10, binary % 10;
    FourNibbles(d3, d2, d1, d0);
    FourDigits(binary);
    (d3 * 0x1000 + d2 * 0x100 + d1 * 0x10 + d0) as u16
  }

  /** A year typed with four digits is stored with those digits, one per nibble. */
  lemma To4DigitBcdDigits(y: u32, d3: int, d2: int, d1: int, d0: int)
    requires 0 <= d3 < 10 && 0 <= d2 < 10 && 0 <= d1 < 10 && 0 <= d0 < 10
    requires y as int == d3 * 1000 + d2 * 100 + d1 * 10 + d0
    ensures To4DigitBcd(y) as int == d3 * 0x1000 + d2 * 0x100 + d1 * 0x10 + d0
  {
    DecimalDigits(y as int, d3, d2, d1, d0);
  }

  // ---------------------------------------------------------------------
  // Module version dates (setModule / getModule)
  // ---------------------------------------------------------------------

  /**
   * The version-year menu of `setModule`: choices 1 to 5 pick a known year,
   * anything else is taken as a four-digit year.
   */
  function SetYear(idx: u32): (r: u16)
    ensures IsBcd4(r as int)
  {
    match idx
    case 1 => 0x2017
    case 2 => 0x2014
    case 3 => 0x2009
    case 4 => 0x2007
    case 5 => 0x2004
    case _ => To4DigitBcd(idx)
  }

  /** Choosing a year from the menu or typing it gives the same stamp. */
  lemma SetYearMenuAgrees()
    ensures SetYear(1) == SetYear(2017) == 0x2017
    ensures SetYear(2) == SetYear(2014) && SetYear(3) == SetYear(2009)
    ensures SetYear(4) == SetYear(2007) && SetYear(5) == SetYear(2004)
  {
    To4DigitBcdDigits(2017, 2, 0, 1, 7);
    To4DigitBcdDigits(2014, 2, 0, 1, 4);
    To4DigitBcdDigits(2009, 2, 0, 0, 9);
    To4DigitBcdDigits(2007, 2, 0, 0, 7);
    To4DigitBcdDigits(2004, 2, 0, 0, 4);
  }

  /** The month codes of the `setModule` menu: the BCD months 1-9 and 0x10-0x12 typed in decimal. */
  predicate IsMonthMenuCode(idx: u32)
  {
    1 <= idx <= 9 || 0x10 <= idx <= 0x12
  }

  /** The BCD months `getModule` names. */
  predicate IsBcdMonth(m: byte)
  {
    1 <= m <= 9 || 0x10 <= m <= 0x12
  }

  /** The last BCD day of a BCD month (0x29 for February, for leap years); none for other values. */
  function LastBcdDay(mon: byte): (d: Option<byte>)
    ensures d.Some? <==> IsBcdMonth(mon)
    ensures d.Some? ==> IsBcd2(d.value as int) && 0x29 <= d.value <= 0x31
  {
    match mon
    case 2 => Some(0x29)
    case 4 => Some(0x30)
    case 6 => Some(0x30)
    case 9 => Some(0x30)
    case 0x11 => Some(0x30)
    case 1 => Some(0x31)
    case 3 => Some(0x31)
    case 5 => Some(0x31)
    case 7 => Some(0x31)
    case 8 => Some(0x31)
    case 0x10 => Some(0x31)
    case 0x12 => Some(0x31)
    case _ => None
  }

  /** How `getModule` prints a version day. */
  datatype DayCheck = DayShown | DayInvalid | DayUnchecked

  /**
   * `getModule`'s day check: a day from 1 to the month's last BCD day is
   * shown, other days are flagged invalid, and under an unrecognised month
   * the day is shown without a check.
   */
  function CheckDay(mon: byte, day: byte): (c: DayCheck)
    ensures c == DayUnchecked <==> !IsBcdMonth(mon)
    ensures c == DayShown <==> IsBcdMonth(mon) && 0 < day <= LastBcdDay(mon).value
  {
    match LastBcdDay(mon)
    case None => DayUnchecked
    case Some(last) => if day != 0 && day <= last then DayShown else DayInvalid
  }

  /** `setModule`'s month entry as written: the menu code is converted to BCD a second time. */
  function SetMonthAsWritten(mon: byte, idx: u32): byte
  {
    if IsMonthMenuCode(idx) then To2DigitBcd(idx) else mon
  }

  /** `setModule`'s day entry as written, checked against the month just stored. */
  function SetDayAsWritten(mon: byte, day: byte, idx: u32): byte
  {
    match LastBcdDay(mon)
    case None => day
    case Some(last) => if 0 < idx <= last as u32 then To2DigitBcd(idx) else day
  }

  /**
   * Typing 16 for October stores 0x16, which `getModule` prints as an invalid
   * month; typing 49 for the 31st of January stores 0x49, an invalid day.
   */
  lemma SetDateAsWrittenCounterexample(mon: byte, day: byte)
    ensures SetMonthAsWritten(mon, 0x10) == 0x16 && !IsBcdMonth(0x16)
    ensures SetDayAsWritten(1, day, 0x31) == 0x49 && CheckDay(1, 0x49) == DayInvalid
  {
    To2DigitBcdDigits(0x10, 1, 6);
    To2DigitBcdDigits(0x31, 4, 9);
  }

  /** `setModule`'s month entry as intended: the menu code already is the BCD month. */
  function SetMonth(mon: byte, idx: u32): (r: byte)
    ensures IsMonthMenuCode(idx) ==> IsBcdMonth(r) && r as int == idx as int
    ensures !IsMonthMenuCode(idx) ==> r == mon
  {
    if IsMonthMenuCode(idx) then idx as int as byte else mon
  }

  /** `setModule`'s day entry as intended: the menu code already is the BCD day. */
  function SetDay(mon: byte, day: byte, idx: u32): (r: byte)
  {
    match LastBcdDay(mon)
    case None => day
    case Some(last) => if 0 < idx <= last as u32 then idx as int as byte else day
  }

  /** Every day `SetDay` accepts is one `getModule` shows as valid; every other entry leaves the day alone. */
  lemma SetDayAgreesWithCheck(mon: byte, day: byte, idx: u32)
    ensures IsBcdMonth(mon) && 0 < idx as int <= LastBcdDay(mon).value as int ==>
      SetDay(mon, day, idx) as int == idx as int && CheckDay(mon, SetDay(mon, day, idx)) == DayShown
    ensures !(IsBcdMonth(mon) && 0 < idx as int <= LastBcdDay(mon).value as int) ==>
      SetDay(mon, day, idx) == day
  {
  }

  // ---------------------------------------------------------------------
  // Module descriptions (setModule)
  // ---------------------------------------------------------------------

  /** What the user types for one module in `setModule`, after the module index. */
  datatype ModuleEntry = ModuleEntry(
    location: u32, make: u32, model: seq<byte>, year: u32, month: u32, day: u32,
    major: u32, minor: u32, patch: u32, kind: u32)

  /**
   * `strncpy(model, text, 7)`: up to seven characters of the typed text, the
   * rest of the first seven bytes NUL; the eighth byte is left as it was.
   */
  function CopyModel(model: Bytes8, text: seq<byte>): (r: Bytes8)
    ensures forall i :: 0 <= i < 7 && i < |text| ==> r[i] == text[i]
    ensures forall i :: |text| <= i < 7 ==> r[i] == 0
    ensures r[7] == model[7]
  {
    var n := if |text| < 7 then |text| else 7;
    text[..n] + seq(7 - n, _ => 0 as byte) + [model[7]]
  }

  /**
   * One pass of `setModule`'s loop for the module `d`: `None` when the
   * location is out of range (the loop ends and the module is unchanged),
   * otherwise the module with every field taken from the entry.
   */
  function EditModule(d: ModD, e: ModuleEntry): (r: Option<ModD>)
    ensures r.None? <==> e.location > 6
    ensures r.Some? ==> r.value.location as int == e.location as int && r.value.make == LowByte(e.make as int)
    ensures r.Some? ==> r.value.version.yearBcd == SetYear(e.year)
    ensures r.Some? ==> r.value.version.monBcd == SetMonth(d.version.monBcd, e.month)
    ensures r.Some? ==> r.value.version.dayBcd == SetDay(r.value.version.monBcd, d.version.dayBcd, e.day)
    ensures r.Some? ==> IsBcd2(r.value.version.majorBcd as int) && IsBcd2(r.value.version.patchBcd as int)
    ensures r.Some? ==> r.value.model == CopyModel(d.model, e.model)
    ensures r.Some? ==> && r.value.version.majorBcd == To2DigitBcd(e.major)
                        && r.value.version.minorBcd == To2DigitBcd(e.minor)
                        && r.value.version.patchBcd == To2DigitBcd(e.patch)
    ensures r.Some? ==> r.value.kind == if e.kind < 4 then e.kind as int as byte else d.kind
  {
    if e.location > 6 then None
    else
      var mon := SetMonth(d.version.monBcd, e.month);
      var v := ModV(SetYear(e.year), mon, SetDay(mon, d.version.dayBcd, e.day),
                    To2DigitBcd(e.major), To2DigitBcd(e.minor), To2DigitBcd(e.patch));
      var kind := if e.kind < 4 then To2DigitBcdRoundTrip(e.kind); To2DigitBcd(e.kind) else d.kind;
      Some(ModD(e.location as int as byte, LowByte(e.make as int), CopyModel(d.model, e.model), v, kind))
  }

  // ---------------------------------------------------------------------
  // Ethernet descriptions (setEthdev / getEthdev)
  // ---------------------------------------------------------------------

  type Octets4 = s: seq<bv32> | |s| == 4 witness [0, 0, 0, 0]
  type Octets6 = s: seq<bv32> | |s| == 6 witness [0, 0, 0, 0, 0, 0]

  /** What the user types for one interface in `setEthdev`, after the interface index. */
  datatype EthEntry = EthEntry(kind: u32, ip: Octets4, mac: Octets6, mask: Octets4, gate: Octets4, iface: u32)

  /** `o0 << 24 | o1 << 16 | o2 << 8 | o3` on u_int32. */
  function PackIp(o: Octets4): bv32
  {
    (o[0] << 24) | (o[1] << 16) | (o[2] << 8) | o[3]
  }

  /** The four numbers `getEthdev` prints for an address, most significant first. */
  function IpOctets(ip: bv32): (o: Octets4)
  {
    [ip >> 24, (ip >> 16) & 0xff, (ip >> 8) & 0xff, ip & 0xff]
  }

  /** `mac_addr[5 - k] = (u_int8)octet k`: the MAC is stored in reverse entry order. */
  function MacFromEntry(m: Octets6): (r: Bytes6)
  {
    seq(6, k requires 0 <= k < 6 => LowByte(m[5 - k] as int))
  }

  /** The MAC octets in the order `getEthdev` prints them: `mac_addr[5]` first. */
  function MacShown(mac: Bytes6): (r: Bytes6)
  {
    seq(6, k requires 0 <= k < 6 => mac[5 - k])
  }

  lemma PackUnpack(a: bv32, b: bv32, c: bv32, d: bv32)
    requires a < 256 && b < 256 && c < 256 && d < 256
    ensures var p := (a << 24) | (b << 16) | (c << 8) | d;
      p >> 24 == a && (p >> 16) & 0xff == b && (p >> 8) & 0xff == c && p & 0xff == d
  {
  }

  /** For octets below 256, the address `getEthdev` prints is the one `setEthdev` was given. */
  lemma IpRoundTrip(o: Octets4)
    requires o[0] < 256 && o[1] < 256 && o[2] < 256 && o[3] < 256
    ensures IpOctets(PackIp(o)) == o
  {
    var a, b, c, d := o[0], o[1], o[2], o[3];
    PackUnpack(a, b, c, d);
    assert o == [a, b, c, d];
  }

  /** For octets below 256, `getEthdev` prints the MAC in the order `setEthdev` took it. */
  lemma MacRoundTrip(m: Octets6)
    requires forall i :: 0 <= i < 6 ==> m[i] < 256
    ensures forall k :: 0 <= k < 6 ==> MacShown(MacFromEntry(m))[k] as int == m[k] as int
  {
  }

  /** An Ethernet type `getEthdev` recognises. */
  predicate ValidEthType(t: byte) { 1 <= t <= 5 }

  /**
   * One pass of `setEthdev`'s loop as written: the new type is stored when
   * the OLD type is at most 5; the interface only when the new value is at
   * most 4; addresses, MAC, mask and gateway are always replaced.
   */
  function EditEthdevAsWritten(d: EthD, e: EthEntry): EthD
  {
    var kind := if d.kind <= 5 then LowByte(e.kind as int) else d.kind;
    var iface := if LowByte(e.iface as int) <= 4 then LowByte(e.iface as int) else d.iface;
    EthD(kind, PackIp(e.ip), MacFromEntry(e.mac), PackIp(e.mask), PackIp(e.gate), iface)
  }

  /** A router (type 5) can be edited into type 9; a header holding type 9 can never be repaired. */
  lemma EditEthdevAsWrittenCounterexample(d: EthD, e: EthEntry)
    requires d.kind == 5 && e.kind == 9
    ensures EditEthdevAsWritten(d, e).kind == 9 && !ValidEthType(EditEthdevAsWritten(d, e).kind)
    ensures EditEthdevAsWritten(d.(kind := 9), e.(kind := 2)).kind == 9
  {
  }

  /** One pass of `setEthdev`'s loop as intended: the type typed is checked, not the old one. */
  function EditEthdev(d: EthD, e: EthEntry): (r: EthD)
    ensures r.kind == if LowByte(e.kind as int) <= 5 then LowByte(e.kind as int) else d.kind
    ensures r.iface == if LowByte(e.iface as int) <= 4 then LowByte(e.iface as int) else d.iface
    ensures r.ipAddr == PackIp(e.ip) && r.ipMask == PackIp(e.mask) && r.ipGate == PackIp(e.gate)
    ensures r.macAddr == MacFromEntry(e.mac)
  {
    var kind := if LowByte(e.kind as int) <= 5 then LowByte(e.kind as int) else d.kind;
    var iface := if LowByte(e.iface as int) <= 4 then LowByte(e.iface as int) else d.iface;
    EthD(kind, PackIp(e.ip), MacFromEntry(e.mac), PackIp(e.mask), PackIp(e.gate), iface)
  }

  /** The intended editor never stores a type above 5 unless one was already there. */
  lemma EditEthdevKeepsTypeInRange(d: EthD, e: EthEntry)
    requires d.kind <= 5
    ensures EditEthdev(d, e).kind <= 5
    ensures 1 <= LowByte(e.kind as int) <= 5 ==> ValidEthType(EditEthdev(d, e).kind)
  {
  }

  // ---------------------------------------------------------------------
  // Port descriptions (setPort)
  // ---------------------------------------------------------------------

  /** What the user types for one port in `setPort`, after the port index. */
  datatype PortEntry = PortEntry(id: u32, mode: u32, speed: bv32)

  /** The speeds `setPort` accepts: 0, the ATC async and SDLC rates, and 1312. */
  predicate IsPortSpeed(s: bv32)
  {
    s in {0, 1200, 2400, 4800, 9600, 19200, 38400, 57600, 76800, 115200, 153600, 614400, 1312}
  }

  /** A port description `getPort` recognises in every field. */
  predicate ValidPort(d: PortD)
  {
    d.id <= 13 && d.mode <= 4 && IsPortSpeed(d.speed)
  }

  /**
   * One pass of `setPort`'s loop: the id (truncated to 8 bits) is stored when
   * at most 13, the mode when at most 4, the speed when it is one of the
   * accepted rates; a rejected value leaves that field unchanged.
   */
  function EditPort(d: PortD, e: PortEntry): (r: PortD)
    ensures r.id == (if LowByte(e.id as int) <= 13 then LowByte(e.id as int) else d.id)
    ensures r.mode == (if LowByte(e.mode as int) <= 4 then LowByte(e.mode as int) else d.mode)
    ensures r.speed == (if IsPortSpeed(e.speed) then e.speed else d.speed)
  {
    var id := LowByte(e.id as int);
    var mode := LowByte(e.mode as int);
    PortD(if id <= 13 then id else d.id,
          if mode <= 4 then mode else d.mode,
          if IsPortSpeed(e.speed) then e.speed else d.speed)
  }

  /** Editing keeps a recognised port description recognised. */
  lemma EditPortKeepsValid(d: PortD, e: PortEntry)
    requires ValidPort(d)
    ensures ValidPort(EditPort(d, e))
  {
  }

  // ---------------------------------------------------------------------
  // Port bitmaps (getPortmap / setPortmap)
  // ---------------------------------------------------------------------

  /** The device names of bits 0 to 10 of a `portmap`. */
  const PORT_NAMES: seq<string> := ["sp1", "sp1s", "sp2", "sp2s", "sp3", "sp3s", "sp4", "sp5s", "sp6", "sp8", "sp8s"]

  /** What `getPortmap` prints for bit `i`: its device name, or "unknown i" for bits 11 to 15. */
  function PortName(i: nat): string
  {
    if i < |PORT_NAMES| then PORT_NAMES[i] else "unknown " + Decimal(i)
  }

  /** The names of the set bits of `p`, lowest first, numbering its lowest bit `idx`. */
  function PortNamesFrom(p: nat, idx: nat): seq<string>
    decreases p
  {
    if p == 0 then []
    else if p % 2 == 1 then [PortName(idx)] + PortNamesFrom(p / 2, idx + 1)
    else PortNamesFrom(p / 2, idx + 1)
  }

  /** What `getPortmap` lists for the map `p`. */
  function PortNames(p: u16): seq<string>
  {
    PortNamesFrom(p as int, 0)
  }

  /**
   * `getPortmap`'s loop: while bits remain, the lowest is tested and the
   * value shifted right. Returns the names printed between the parentheses.
   */
  method GetPortmap(ports: u16) returns (names: seq<string>)
    ensures names == PortNames(ports)
  {
    names := [];
    var p: nat := ports as int;
    var idx: nat := 0;
    while p > 0
      invariant names + PortNamesFrom(p, idx) == PortNamesFrom(ports as int, 0)
      decreases p
    {
      if p % 2 == 1 {
        names := names + [PortName(idx)];
      }
      p := p / 2;
      idx := idx + 1;
    }
  }

  lemma PortNamesDistinct(i: nat, j: nat)
    requires PortName(i) == PortName(j)
    ensures i == j
  {
    if i >= |PORT_NAMES| && j >= |PORT_NAMES| {
      assert Decimal(i) == PortName(i)[8..];
      assert Decimal(j) == PortName(j)[8..];
      DecimalInjective(i, j);
    }
  }

  lemma {:induction false} PortNamesFromBits(p: nat, idx: nat, k: nat)
    ensures PortName(k) in PortNamesFrom(p, idx) <==> idx <= k && BitSet(p, k - idx)
    decreases p
  {
    if p == 0 {
      if idx <= k {
        BitSetZero(k - idx);
      }
    } else {
      PortNamesFromBits(p / 2, idx + 1, k);
      if p % 2 == 1 && PortName(k) == PortName(idx) {
        PortNamesDistinct(k, idx);
      }
    }
  }

  /** `getPortmap` names a device exactly when its bit is set. */
  lemma PortNamesMeaning(p: u16, i: nat)
    ensures PortName(i) in PortNames(p) <==> BitSet(p as int, i)
  {
    PortNamesFromBits(p as int, 0, i);
  }


  /** Setting bit `i`: `p | 1 << i`. */
  function SetBit(p: nat, i: nat): (r: nat)
  {
    if BitSet(p, i) then p else p + Pow2(i)
  }

  lemma {:induction false} SetBitBits(p: nat, i: nat, j: nat)
    ensures BitSet(SetBit(p, i), j) <==> BitSet(p, j) || i == j
    decreases i
  {
    if !BitSet(p, i) {
      if i == 0 {
        if j > 0 {
          assert (p + 1) / 2 == p / 2;
        }
      } else {
        assert (p + Pow2(i)) % 2 == p % 2;
        assert (p + Pow2(i)) / 2 == p / 2 + Pow2(i - 1);
        assert !BitSet(p / 2, i - 1);
        if j > 0 {
          SetBitBits(p / 2, i - 1, j - 1);
        }
      }
    }
  }

  /** A selection of `setPortmap`'s menu: 1 to 11 enable a port, anything else quits. */
  predicate IsPortSelection(n: u32) { 1 <= n <= 11 }

  /** The selections `setPortmap` acts on: those before the first one outside 1 to 11. */
  function Selections(sels: seq<u32>): (r: seq<u32>)
    ensures r <= sels
    ensures forall k :: 0 <= k < |r| ==> IsPortSelection(r[k])
    ensures |r| < |sels| ==> !IsPortSelection(sels[|r|])
  {
    if sels == [] || !IsPortSelection(sels[0]) then [] else [sels[0]] + Selections(sels[1..])
  }

  /**
   * `setPortmap`'s loop on the map `p`: selection n in 1 to 11 sets bit
   * n - 1 and the loop goes on; any other value ends it.
   */
  function SetPortmapFrom(p: u16, sels: seq<u32>): u16
    decreases |sels|
  {
    if sels == [] || !IsPortSelection(sels[0]) then p
    else
      Pow2Sixteen();
      SetBitBound(p as int, sels[0] as int - 1, 16);
      SetPortmapFrom(SetBit(p as int, sels[0] as int - 1) as u16, sels[1..])
  }

  /** The selections only ever add ports: the map keeps its old bits and gains the selected ones, nothing else. */
  lemma {:induction false} SetPortmapBits(p: u16, sels: seq<u32>, j: nat)
    ensures BitSet(SetPortmapFrom(p, sels) as int, j) <==> BitSet(p as int, j) || (j < 11 && (j + 1) as u32 in Selections(sels))
    decreases |sels|
  {
    if sels != [] && IsPortSelection(sels[0]) {
      var i := sels[0] as int - 1;
      Pow2Sixteen();
      SetBitBound(p as int, i, 16);
      SetPortmapBits(SetBit(p as int, i) as u16, sels[1..], j);
      SetBitBits(p as int, i, j);
    }
  }

  lemma Pow2Sixteen()
    ensures Pow2(16) == TWO_TO_16
  {
    assert Pow2(2) == 4;
    assert Pow2(4) == 16;
    assert Pow2(8) == 256;
    assert Pow2(12) == 4096;
  }

  /** Setting a bit below `n` keeps a map below `2^n`. */
  lemma {:induction false} SetBitBound(p: nat, i: nat, n: nat)
    requires p < Pow2(n) && i < n
    ensures SetBit(p, i) < Pow2(n)
    decreases i
  {
    if !BitSet(p, i) {
      if i == 0 {
        assert p % 2 == 0;
        assert Pow2(n) == 2 * Pow2(n - 1);
      } else {
        assert Pow2(n) == 2 * Pow2(n - 1);
        assert Pow2(i) == 2 * Pow2(i - 1);
        SetBitBound(p / 2, i - 1, n - 1);
        assert SetBit(p / 2, i - 1) == p / 2 + Pow2(i - 1);
      }
    }
  }
}
