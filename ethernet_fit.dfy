/**
 * The Ethernet test of `ethernetFit.c`: it configures the virtual interfaces
 * eth0:5 and eth1:5 from eth0's settings (or from a configuration file),
 * pings an address on each new network, and takes down what it brought up.
 * Addresses are `s_addr` values: 32-bit words whose bytes in memory are the
 * dotted octets, so what an arithmetic edit does to the octets depends on
 * the byte order of the target.
 */
module EthernetFit {
  import opened FitTypes

  const INC_SECOND_OCTET: bv32 := 0x0001_0000
  const DEFAULT_PING_OCTET: string := "254"
  const DEFAULT_PING_TIMEOUT: nat := 5
  const IFNAMSIZ: nat := 16

  /** The dotted octets of an address, first octet first. */
  function Octets(s: bv32, order: ByteOrder): (o: seq<byte>)
    ensures |o| == 4
  {
    Bytes32(s, order)
  }

  // ---------------------------------------------------------------------
  // Broadcast address
  // ---------------------------------------------------------------------

  /**
   * The broadcast address `importFromFile` derives for an interface:
   * `(mask & addr) | (~mask & 0xFFFFFFFF)`. It keeps the network part of
   * the address and sets every host bit, in either byte order.
   */
  function Broadcast(mask: bv32, addr: bv32): (b: bv32)
    ensures b & mask == addr & mask
    ensures b & !mask == !mask
  {
    (mask & addr) | (!mask & 0xFFFF_FFFF)
  }

  /** The broadcast address is the highest address of the network: no address of the network lies above it bit for bit. */
  lemma BroadcastIsTop(mask: bv32, addr: bv32, other: bv32)
    requires other & mask == addr & mask
    ensures other | Broadcast(mask, addr) == Broadcast(mask, addr)
  {
  }

  // ---------------------------------------------------------------------
  // Default settings
  // ---------------------------------------------------------------------

  /** `inet_addr("255.255.0.0")`: the word whose bytes in memory are 255, 255, 0, 0. */
  function DefaultNetmask(order: ByteOrder): (m: bv32)
    ensures Octets(m, order) == [255, 255, 0, 0]
  {
    if order == BigEndian then 0xFFFF_0000 else 0x0000_FFFF
  }

  /** Adding `INC_SECOND_OCTET` raises bits 16-23 by one and leaves the other bits, while bits 16-23 stay below 255. */
  lemma AddToBits16(s: bv32)
    requires (s >> 16) & 0xff < 255
    ensures var t := s + INC_SECOND_OCTET;
            && t >> 24 == s >> 24 && (t >> 16) & 0xff == ((s >> 16) & 0xff) + 1
            && (t >> 8) & 0xff == (s >> 8) & 0xff && t & 0xff == s & 0xff
  {
  }

  lemma SmallSucc(a: bv32)
    requires a < 255
    ensures (a + 1) as int == a as int + 1
  {
  }

  lemma BelowMax(a: bv32)
    requires a as int < 255
    ensures a < 255
  {
  }

  /** Two words that differ only by one in bits 16-23 differ only by one in the octet those bits hold. */
  lemma OctetsAfterIncrementBig(s: bv32, t: bv32, a: bv32, a': bv32)
    requires a == (s >> 16) & 0xff && a' == (t >> 16) & 0xff && a' as int == a as int + 1
    requires t >> 24 == s >> 24 && (t >> 8) & 0xff == (s >> 8) & 0xff && t & 0xff == s & 0xff
    ensures var o := Bytes32(s, BigEndian); Bytes32(t, BigEndian) == [o[0], o[1] + 1, o[2], o[3]]
  {
  }

  lemma OctetsAfterIncrementLittle(s: bv32, t: bv32, a: bv32, a': bv32)
    requires a == (s >> 16) & 0xff && a' == (t >> 16) & 0xff && a' as int == a as int + 1
    requires t >> 24 == s >> 24 && (t >> 8) & 0xff == (s >> 8) & 0xff && t & 0xff == s & 0xff
    ensures var o := Bytes32(s, LittleEndian); Bytes32(t, LittleEndian) == [o[0], o[1], o[2] + 1, o[3]]
  {
  }

  /**
   * On a big-endian target, adding `INC_SECOND_OCTET` raises the second
   * octet by one and leaves the others, as long as the second octet is
   * below 255.
   */
  lemma IncSecondOctetBigEndian(s: bv32)
    requires Octets(s, BigEndian)[1] < 255
    ensures var o := Octets(s, BigEndian);
            Octets(s + INC_SECOND_OCTET, BigEndian) == [o[0], o[1] + 1, o[2], o[3]]
  {
    var t := s + INC_SECOND_OCTET;
    var a := (s >> 16) & 0xff;
    BelowMax(a);
    AddToBits16(s);
    SmallSucc(a);
    OctetsAfterIncrementBig(s, t, a, (t >> 16) & 0xff);
  }

  /**
   * On a little-endian target the same addition lands in the third octet
   * instead, as long as that is below 255.
   */
  lemma IncSecondOctetLittleEndian(s: bv32)
    requires Octets(s, LittleEndian)[2] < 255
    ensures var o := Octets(s, LittleEndian);
            Octets(s + INC_SECOND_OCTET, LittleEndian) == [o[0], o[1], o[2] + 1, o[3]]
  {
    var t := s + INC_SECOND_OCTET;
    var a := (s >> 16) & 0xff;
    BelowMax(a);
    AddToBits16(s);
    SmallSucc(a);
    OctetsAfterIncrementLittle(s, t, a, (t >> 16) & 0xff);
  }

  /** `inet_ntoa`: the dotted-decimal text of an address. */
  function Dotted(o: seq<byte>): (s: string)
    requires |o| == 4
    ensures |s| <= 15
  {
    DecimalWidth(o[0] as nat);
    DecimalWidth(o[1] as nat);
    DecimalWidth(o[2] as nat);
    DecimalWidth(o[3] as nat);
    Decimal(o[0] as nat) + "." + Decimal(o[1] as nat) + "." + Decimal(o[2] as nat) + "." + Decimal(o[3] as nat)
  }

  lemma DecimalWidth(n: nat)
    requires n < 1000
    ensures |Decimal(n)| <= 3
  {
    if n >= 10 {
      DecimalWidth(n / 10);
    }
  }

  /** `snprintf(p, 4, "%s", s)`: at most the first three characters. */
  function Take3(s: string): (t: string)
    ensures |t| <= 3 && |t| <= |s| && t == s[..|t|]
    ensures |s| <= 3 ==> t == s
  {
    if |s| <= 3 then s else s[..3]
  }

  /** `strstr(s + from, ".")`: the index of the first '.' at or after `from`. */
  method FindDot(s: string, from: nat) returns (i: nat)
    requires from <= |s| && exists k :: from <= k < |s| && s[k] == '.'
    ensures from <= i < |s| && s[i] == '.'
    ensures forall k :: from <= k < i ==> s[k] != '.'
  {
    i := from;
    while s[i] != '.'
      invariant from <= i < |s|
      invariant forall k :: from <= k < i ==> s[k] != '.'
      invariant exists k :: i <= k < |s| && s[k] == '.'
      decreases |s| - i
    {
      i := i + 1;
    }
  }

  /** `s` holds no '.'. */
  predicate NoDot(s: string)
  {
    forall k :: 0 <= k < |s| ==> s[k] != '.'
  }

  lemma NoDotInDecimal(n: nat)
    ensures NoDot(Decimal(n))
  {
  }

  /** The ping address for an interface address: its first three octets, then the configured octet. */
  function PingAddressOf(o: seq<byte>, pingOctet: string): string
    requires |o| == 4
  {
    Decimal(o[0] as nat) + "." + Decimal(o[1] as nat) + "." + Decimal(o[2] as nat) + "." + Take3(pingOctet)
  }

  /**
   * The in-place edit of `importDefaultSettings`: print the interface address,
   * find the third '.', and write the configured octet (at most three
   * characters) after it.
   */
  method PingAddress(o: seq<byte>, pingOctet: string) returns (ping: string)
    requires |o| == 4
    ensures ping == PingAddressOf(o, pingOctet)
  {
    var d0, d1, d2, d3 := Decimal(o[0] as nat), Decimal(o[1] as nat), Decimal(o[2] as nat), Decimal(o[3] as nat);
    NoDotInDecimal(o[0] as nat);
    NoDotInDecimal(o[1] as nat);
    NoDotInDecimal(o[2] as nat);
    ping := Dotted(o);
    assert ping == d0 + "." + d1 + "." + d2 + "." + d3;
    var p1, p2, p3 := |d0|, |d0| + 1 + |d1|, |d0| + 1 + |d1| + 1 + |d2|;
    assert ping[p1] == '.' && ping[p2] == '.' && ping[p3] == '.';
    assert forall k :: 0 <= k < p1 ==> ping[k] == d0[k];
    assert forall k :: p1 + 1 <= k < p2 ==> ping[k] == d1[k - p1 - 1];
    assert forall k :: p2 + 1 <= k < p3 ==> ping[k] == d2[k - p2 - 1];
    var lastOctet := FindDot(ping, 0);
    assert lastOctet == p1;
    lastOctet := FindDot(ping, lastOctet + 1);
    assert lastOctet == p2;
    lastOctet := FindDot(ping, lastOctet + 1);
    assert lastOctet == p3;
    lastOctet := lastOctet + 1;
    assert ping[..lastOctet] == d0 + "." + d1 + "." + d2 + ".";
    ping := ping[..lastOctet] + Take3(pingOctet);
  }

  /** The fields of a dotted text, split at every '.'. */
  function Fields(s: string): (f: seq<string>)
    ensures |f| >= 1
    decreases |s|
  {
    if s == [] then [""]
    else
      var rest := Fields(s[1..]);
      if s[0] == '.' then [""] + rest else [[s[0]] + rest[0]] + rest[1..]
  }

  /** A field without '.' joins the first field of what follows it. */
  lemma {:induction false} FieldsOfPlain(s: string, tail: string)
    requires NoDot(s)
    ensures Fields(s + tail) == [s + Fields(tail)[0]] + Fields(tail)[1..]
    decreases |s|
  {
    var f := Fields(tail);
    if s == [] {
      assert s + tail == tail && s + f[0] == f[0];
      assert f == [f[0]] + f[1..];
    } else {
      assert (s + tail)[1..] == s[1..] + tail;
      FieldsOfPlain(s[1..], tail);
      var rest := Fields(s[1..] + tail);
      assert rest[0] == s[1..] + f[0] && rest[1..] == f[1..];
      assert [s[0]] + (s[1..] + f[0]) == s + f[0];
    }
  }

  /** A field without '.' followed by a '.' is a field of its own. */
  lemma FieldsOfJoin(s: string, tail: string)
    requires NoDot(s)
    ensures Fields(s + "." + tail) == [s] + Fields(tail)
  {
    FieldsOfPlain(s, "." + tail);
    assert ("." + tail)[1..] == tail;
    assert Fields("." + tail) == [""] + Fields(tail);
    assert s + "" == s;
    assert s + "." + tail == s + ("." + tail);
  }

  /**
   * The ping address has four dotted fields: the interface's first three
   * octets, which read back as their values, and the configured octet.
   */
  lemma PingAddressFields(o: seq<byte>, pingOctet: string)
    requires |o| == 4 && NoDot(pingOctet)
    ensures Fields(PingAddressOf(o, pingOctet)) ==
      [Decimal(o[0] as nat), Decimal(o[1] as nat), Decimal(o[2] as nat), Take3(pingOctet)]
    ensures forall i :: 0 <= i < 3 ==> DecimalValue(Fields(PingAddressOf(o, pingOctet))[i]) == o[i] as nat
  {
    var d0, d1, d2, t := Decimal(o[0] as nat), Decimal(o[1] as nat), Decimal(o[2] as nat), Take3(pingOctet);
    NoDotInDecimal(o[0] as nat);
    NoDotInDecimal(o[1] as nat);
    NoDotInDecimal(o[2] as nat);
    FieldsOfFour(d0, d1, d2, t);
    assert PingAddressOf(o, pingOctet) == d0 + "." + d1 + "." + d2 + "." + t;
    DecimalRoundTrip(o[0] as nat);
    DecimalRoundTrip(o[1] as nat);
    DecimalRoundTrip(o[2] as nat);
  }

  /** Four fields without '.', joined by '.', split back into those four. */
  lemma FieldsOfFour(d0: string, d1: string, d2: string, t: string)
    requires NoDot(d0) && NoDot(d1) && NoDot(d2) && NoDot(t)
    ensures Fields(d0 + "." + d1 + "." + d2 + "." + t) == [d0, d1, d2, t]
  {
    FieldsOfPlain(t, "");
    assert t + "" == t;
    var u2 := d2 + "." + t;
    FieldsOfJoin(d2, t);
    var u1 := d1 + "." + u2;
    FieldsOfJoin(d1, u2);
    FieldsOfJoin(d0, u1);
    DotJoinAssoc(d0, d1, d2, t);
  }

  lemma DotJoinAssoc(d0: string, d1: string, d2: string, t: string)
    ensures d0 + "." + d1 + "." + d2 + "." + t == d0 + "." + (d1 + "." + (d2 + "." + t))
  {
  }

  /** The settings of one interface: name, address, broadcast address and netmask. */
  datatype EthInfo = EthInfo(name: string, addr: bv32, broadaddr: bv32, netmask: bv32)

  /**
   * `importDefaultSettings`: both virtual interfaces get netmask 255.255.0.0;
   * eth0:5's address and broadcast address are raised by `INC_SECOND_OCTET`
   * once, eth1:5's twice; each ping address is the new address with the
   * configured last octet.
   */
  method ImportDefaultSettings(eth0: EthInfo, eth1: EthInfo, pingOctet: string, order: ByteOrder)
    returns (new0: EthInfo, new1: EthInfo, ping0: string, ping1: string)
    ensures new0 == eth0.(netmask := DefaultNetmask(order), addr := eth0.addr + INC_SECOND_OCTET,
                          broadaddr := eth0.broadaddr + INC_SECOND_OCTET)
    ensures new1 == eth1.(netmask := DefaultNetmask(order), addr := eth1.addr + 2 * INC_SECOND_OCTET,
                          broadaddr := eth1.broadaddr + 2 * INC_SECOND_OCTET)
    ensures ping0 == PingAddressOf(Octets(new0.addr, order), pingOctet)
    ensures ping1 == PingAddressOf(Octets(new1.addr, order), pingOctet)
  {
    var mask := DefaultNetmask(order);
    new0 := eth0.(netmask := mask, addr := eth0.addr + INC_SECOND_OCTET,
                  broadaddr := eth0.broadaddr + INC_SECOND_OCTET);
    ping0 := PingAddress(Octets(new0.addr, order), pingOctet);

    new1 := eth1.(netmask := mask, addr := eth1.addr + 2 * INC_SECOND_OCTET,
                  broadaddr := eth1.broadaddr + 2 * INC_SECOND_OCTET);
    ping1 := PingAddress(Octets(new1.addr, order), pingOctet);
  }

  lemma AddTwice(s: bv32)
    ensures s + 2 * INC_SECOND_OCTET == (s + INC_SECOND_OCTET) + INC_SECOND_OCTET
  {
  }

  /**
   * On a big-endian target, with eth0 at a.b.c.d and b below 254, eth0:5
   * lands on a.(b+1).c.d and eth1:5 on a.(b+2).c.d.
   */
  lemma DefaultSettingsBigEndian(addr: bv32)
    requires Octets(addr, BigEndian)[1] < 254
    ensures var o := Octets(addr, BigEndian);
            && Octets(addr + INC_SECOND_OCTET, BigEndian) == [o[0], o[1] + 1, o[2], o[3]]
            && Octets(addr + 2 * INC_SECOND_OCTET, BigEndian) == [o[0], o[1] + 2, o[2], o[3]]
  {
    IncSecondOctetBigEndian(addr);
    IncSecondOctetBigEndian(addr + INC_SECOND_OCTET);
    AddTwice(addr);
  }

  // ---------------------------------------------------------------------
  // Configuration file
  // ---------------------------------------------------------------------

  /** The six values `importFromFile` reads from the configuration file. */
  datatype FileConfig = FileConfig(eth0: EthInfo, eth1: EthInfo, ping0: string, ping1: string)

  /** Why reading the configuration file stopped. */
  datatype FileError = CannotOpen | MissingLine(index: nat)

  datatype Imported = Imported(config: FileConfig) | ImportFailed(err: FileError)

  /**
   * `importFromFile` over what successive `fgets` calls return (`None` at
   * the end of the file) and `inet_addr` as the parser of address text:
   * eth0's address, netmask and ping address, then eth1's. A missing or
   * empty line ends the import with an error. Each broadcast address is
   * derived from the address and netmask just read.
   */
  function ImportFromFile(isOpen: bool, lines: seq<Option<string>>, eth0: EthInfo, eth1: EthInfo,
                          inetAddr: string -> bv32): (r: Imported)
    requires |lines| == 6
    ensures !isOpen ==> r == ImportFailed(CannotOpen)
    ensures r.ImportFailed? && r.err.MissingLine? ==>
      (var k := r.err.index;
       k < 6 && (lines[k].None? || lines[k].value == "") &&
       forall j :: 0 <= j < k ==> lines[j].Some? && lines[j].value != "")
    ensures r.Imported? ==> forall j :: 0 <= j < 6 ==> lines[j].Some? && lines[j].value != ""
    ensures r.Imported? ==>
      && r.config.eth0.broadaddr == Broadcast(r.config.eth0.netmask, r.config.eth0.addr)
      && r.config.eth1.broadaddr == Broadcast(r.config.eth1.netmask, r.config.eth1.addr)
      && r.config.ping0 == lines[2].value && r.config.ping1 == lines[5].value
  {
    if !isOpen then ImportFailed(CannotOpen)
    else
      match FirstMissing(lines, 0)
      case Some(k) => ImportFailed(MissingLine(k))
      case None =>
        var a0, m0 := inetAddr(lines[0].value), inetAddr(lines[1].value);
        var a1, m1 := inetAddr(lines[3].value), inetAddr(lines[4].value);
        Imported(FileConfig(
          eth0.(addr := a0, netmask := m0, broadaddr := Broadcast(m0, a0)),
          eth1.(addr := a1, netmask := m1, broadaddr := Broadcast(m1, a1)),
          lines[2].value, lines[5].value))
  }

  /** The first line from `i` on that is missing or empty. */
  function FirstMissing(lines: seq<Option<string>>, i: nat): (r: Option<nat>)
    requires i <= |lines|
    ensures r.Some? ==> i <= r.value < |lines| && (lines[r.value].None? || lines[r.value].value == "")
    ensures r.Some? ==> forall j :: i <= j < r.value ==> lines[j].Some? && lines[j].value != ""
    ensures r.None? ==> forall j :: i <= j < |lines| ==> lines[j].Some? && lines[j].value != ""
    decreases |lines| - i
  {
    if i == |lines| then None
    else if lines[i].None? || lines[i].value == "" then Some(i)
    else FirstMissing(lines, i + 1)
  }

  // ---------------------------------------------------------------------
  // Options
  // ---------------------------------------------------------------------

  /**
   * One option `getopt` returns: `-c file`, `-o octet`, `-t seconds`,
   * `-h`/`-?`, or anything else. For `-t`, `count` is what `sscanf` with
   * `%lu` returned (1 with `value` converted, 0 when the argument does not
   * start with a number, -1 (EOF) for an empty or blank argument).
   */
  datatype EthOption = ConfigOpt(file: string) | OctetOpt(octet: string) | TimeoutOpt(count: int, value: u32) | HelpOpt | UnknownOpt

  datatype EthArgs = EthArgs(configFile: string, pingOctet: string, pingTimeout: u32)

  const INITIAL_ARGS: EthArgs := EthArgs("", "", DEFAULT_PING_TIMEOUT as u32)

  /** `strncpy(dst, src, n)` into an `n`-byte buffer: at most the first `n` characters. */
  function TakeAtMost(s: string, n: nat): (t: string)
    ensures |t| <= n && |t| <= |s| && t == s[..|t|]
  {
    if |s| <= n then s else s[..n]
  }

  /** What one option does to the arguments, and whether it stops the parse. */
  function ApplyOption(opt: EthOption, args: EthArgs): (EthArgs, bool)
  {
    match opt
    case ConfigOpt(f) => (args.(configFile := TakeAtMost(f, 50)), false)
    case OctetOpt(o) => (args.(pingOctet := TakeAtMost(o, 8)), false)
    case TimeoutOpt(count, v) => (if count == 1 then args.(pingTimeout := v) else args, count == 0)
    case HelpOpt => (args, true)
    case UnknownOpt => (args, true)
  }

  /** The options from index `i` on, until one stops the parse. */
  function ApplyOptions(opts: seq<EthOption>, i: nat, args: EthArgs): (r: (EthArgs, bool))
    requires i <= |opts|
    decreases |opts| - i
  {
    if i == |opts| then (args, false)
    else
      var (next, stop) := ApplyOption(opts[i], args);
      if stop then (next, true) else ApplyOptions(opts, i + 1, next)
  }

  /** `parseEthArguments`: -1 when the options say stop; the ping octet falls back to "254" when none was given. */
  method ParseEthArguments(opts: seq<EthOption>) returns (ret: int, args: EthArgs)
    ensures var (parsed, stop) := ApplyOptions(opts, 0, INITIAL_ARGS);
            && (ret == if stop then -1 else 0)
            && args == parsed.(pingOctet := if parsed.pingOctet == "" then DEFAULT_PING_OCTET else parsed.pingOctet)
  {
    ret := 0;
    args := INITIAL_ARGS;
    var i := 0;
    while i < |opts| && ret == 0
      invariant 0 <= i <= |opts|
      invariant ret == 0 ==> ApplyOptions(opts, i, args) == ApplyOptions(opts, 0, INITIAL_ARGS)
      invariant ret != 0 ==> ret == -1 && (args, true) == ApplyOptions(opts, 0, INITIAL_ARGS)
    {
      var (next, stop) := ApplyOption(opts[i], args);
      args := next;
      if stop {
        ret := -1;
      }
      i := i + 1;
    }
    if args.pingOctet == "" {
      args := args.(pingOctet := DEFAULT_PING_OCTET);
    }
  }

  /**
   * Only a `-t` argument that `sscanf` could not convert at all stops the
   * parse; an empty or blank one (EOF) keeps the timeout and the parse goes
   * on with the next option.
   */
  lemma TimeoutOptionStops(opts: seq<EthOption>, i: nat, args: EthArgs)
    requires i < |opts| && opts[i].TimeoutOpt?
    ensures opts[i].count == 0 ==> ApplyOptions(opts, i, args) == (args, true)
    ensures opts[i].count == 1 ==> ApplyOptions(opts, i, args) == ApplyOptions(opts, i + 1, args.(pingTimeout := opts[i].value))
    ensures opts[i].count != 0 && opts[i].count != 1 ==> ApplyOptions(opts, i, args) == ApplyOptions(opts, i + 1, args)
  {
  }

  /** A blank `-t` followed by `-o 7` still sets the ping octet, and the parse succeeds. */
  lemma BlankTimeoutGoesOn()
    ensures ApplyOptions([TimeoutOpt(-1, 0), OctetOpt("7")], 0, INITIAL_ARGS) == (INITIAL_ARGS.(pingOctet := "7"), false)
  {
    var opts := [TimeoutOpt(-1, 0), OctetOpt("7")];
    assert ApplyOptions(opts, 1, INITIAL_ARGS) == ApplyOptions(opts, 2, INITIAL_ARGS.(pingOctet := "7"));
  }

  /** Without a `-o` option the parsed octet stays empty, so `ParseEthArguments` supplies "254". */
  lemma NoOctetOptionLeavesDefault(opts: seq<EthOption>)
    ensures (forall i :: 0 <= i < |opts| ==> !opts[i].OctetOpt?) ==> ApplyOptions(opts, 0, INITIAL_ARGS).0.pingOctet == ""
  {
    if forall i :: 0 <= i < |opts| ==> !opts[i].OctetOpt? {
      NoOctetKeepsOctet(opts, 0, INITIAL_ARGS);
    }
  }

  lemma {:induction false} NoOctetKeepsOctet(opts: seq<EthOption>, i: nat, args: EthArgs)
    requires i <= |opts| && forall j :: i <= j < |opts| ==> !opts[j].OctetOpt?
    ensures ApplyOptions(opts, i, args).0.pingOctet == args.pingOctet
    decreases |opts| - i
  {
    if i < |opts| {
      var (next, stop) := ApplyOption(opts[i], args);
      if !stop {
        NoOctetKeepsOctet(opts, i + 1, next);
      }
    }
  }

  // ---------------------------------------------------------------------
  // Interfaces brought up
  // ---------------------------------------------------------------------

  /** The name `if_isUp`, `if_setUp` use for an interface: the text before the first ':'. */
  function BaseName(name: string): (b: string)
    ensures |b| <= |name| && b == name[..|b|]
    ensures forall k :: 0 <= k < |b| ==> b[k] != ':'
    ensures |b| < |name| ==> name[|b|] == ':'
  {
    if name == [] || name[0] == ':' then "" else [name[0]] + BaseName(name[1..])
  }

  /** How the `socket` and `ioctl` calls of `if_setUp` went. */
  datatype SetUpOutcome = SocketFailed | GetFlagsFailed | SetFlagsFailed | FlagsSet

  /** The table after recording `name` in its first empty slot; a full table stays as it is. */
  function Record(names: seq<string>, name: string): (r: seq<string>)
    ensures |r| == |names|
    decreases |names|
  {
    if names == [] then []
    else if names[0] == "" then [name] + names[1..]
    else [names[0]] + Record(names[1..], name)
  }

  /** Recording fills the first empty slot and changes no other slot. */
  lemma {:induction false} RecordFirstEmpty(names: seq<string>, name: string, i: nat)
    requires i < |names| && names[i] == "" && forall j :: 0 <= j < i ==> names[j] != ""
    ensures Record(names, name) == names[i := name]
    decreases |names|
  {
    if i == 0 {
      assert [name] + names[1..] == names[0 := name];
    } else {
      var tail := names[1..];
      assert tail[i - 1] == "";
      assert forall j :: 0 <= j < i - 1 ==> tail[j] != "" by {
        forall j | 0 <= j < i - 1 ensures tail[j] != "" { assert tail[j] == names[j + 1]; }
      }
      RecordFirstEmpty(tail, name, i - 1);
      assert [names[0]] + tail[i - 1 := name] == names[i := name];
    }
  }

  /** A table with no empty slot is left as it is. */
  lemma {:induction false} RecordFull(names: seq<string>, name: string)
    requires forall i :: 0 <= i < |names| ==> names[i] != ""
    ensures Record(names, name) == names
    decreases |names|
  {
    if names != [] {
      var tail := names[1..];
      assert forall i :: 0 <= i < |tail| ==> tail[i] != "" by {
        forall i | 0 <= i < |tail| ensures tail[i] != "" { assert tail[i] == names[i + 1]; }
      }
      RecordFull(tail, name);
      assert [names[0]] + tail == names;
    }
  }

  /**
   * The table of interfaces `if_setUp` brought up: two slots of at most
   * `IFNAMSIZ` characters, the empty string for an unused slot.
   */
  class UpTable {
    var names: seq<string>

    ghost predicate Valid()
      reads this
    {
      |names| == 2
    }

    constructor()
      ensures Valid() && names == ["", ""]
    {
      names := ["", ""];
    }

    /**
     * `if_setUp(if_name)`: bring up the interface named before the colon,
     * and on success record that name in the first empty slot.
     */
    method SetUp(ifName: string, outcome: SetUpOutcome) returns (ret: int)
      requires Valid() && |ifName| < IFNAMSIZ
      modifies this
      ensures Valid()
      ensures ret == (if outcome == FlagsSet then 0 else -1)
      ensures names == if outcome == FlagsSet then Record(old(names), BaseName(ifName)) else old(names)
    {
      if outcome == SocketFailed {
        return -1;
      }
      var name := BaseName(ifName);
      if outcome == GetFlagsFailed || outcome == SetFlagsFailed {
        return -1;
      }
      ret := 0;
      var i := 0;
      ghost var before := names;
      while i < |names|
        invariant 0 <= i <= |names| == 2
        invariant names == before
        invariant forall j :: 0 <= j < i ==> names[j] != ""
      {
        if names[i] == "" {
          RecordFirstEmpty(names, name, i);
          names := names[i := name];
          return;
        }
        i := i + 1;
      }
      RecordFull(names, name);
    }

    /**
     * `if_setDown`: call `if_down` for every recorded name, in slot order,
     * with `downRet[i]` what the call for slot `i` returns. The result is
     * -1 if any of these calls failed, and 0 otherwise.
     */
    method SetDown(downRet: seq<int>) returns (ret: int, downed: seq<string>)
      requires Valid() && |downRet| == |names|
      ensures ret == -1 <==> exists i :: 0 <= i < |names| && names[i] != "" && downRet[i] != 0
      ensures ret == 0 || ret == -1
      ensures downed == Recorded(names)
    {
      ret := 0;
      downed := [];
      var i := 0;
      while i < |names|
        invariant 0 <= i <= |names|
        invariant ret == -1 <==> exists j :: 0 <= j < i && names[j] != "" && downRet[j] != 0
        invariant ret == 0 || ret == -1
        invariant downed == Recorded(names[..i])
      {
        assert names[..i + 1] == names[..i] + [names[i]];
        RecordedAppend(names[..i], names[i]);
        if names[i] != "" {
          ret := if downRet[i] != 0 then -1 else ret;
          downed := downed + [names[i]];
        }
        i := i + 1;
      }
      assert names[..i] == names;
    }
  }

  /** The non-empty slots, in order. */
  function Recorded(names: seq<string>): (r: seq<string>)
    ensures |r| <= |names|
    ensures forall k :: 0 <= k < |r| ==> r[k] != "" && r[k] in names
  {
    if names == [] then []
    else (if names[0] != "" then [names[0]] else []) + Recorded(names[1..])
  }

  lemma {:induction false} RecordedAppend(names: seq<string>, n: string)
    ensures Recorded(names + [n]) == Recorded(names) + (if n != "" then [n] else [])
    decreases |names|
  {
    if names == [] {
      assert [n][1..] == [];
    } else {
      assert (names + [n])[1..] == names[1..] + [n];
      RecordedAppend(names[1..], n);
    }
  }

  // ---------------------------------------------------------------------
  // Ping and verdict
  // ---------------------------------------------------------------------

  /**
   * `ping` in the parent process, from the two `fork` results and what
   * `wait` returned: the return value and the status it records. A failed
   * fork records an error but returns 0.
   */
  function PingResult(pingPid: int, timeoutPid: int, waitRet: int): (r: (int, FtRet))
    requires pingPid != 0 && timeoutPid != 0 && (pingPid > 0 && timeoutPid > 0 ==> pingPid != timeoutPid)
    ensures r.1 == FtPass <==> pingPid > 0 && timeoutPid > 0 && waitRet == pingPid
    ensures r.0 == -1 <==> pingPid > 0 && timeoutPid > 0 && waitRet != pingPid
  {
    if pingPid < 0 then (0, FtError)
    else if timeoutPid < 0 then (0, FtError)
    else if waitRet == timeoutPid then (-1, FtError)
    else if waitRet == pingPid then (0, FtPass)
    else (-1, FtError)
  }

  /** The text naming the interfaces whose ping failed. */
  function ErrorString(eth0Fail: int, eth1Fail: int): (s: string)
    ensures s == "" <==> eth0Fail == 0 && eth1Fail == 0
  {
    if eth0Fail != 0 then
      if eth1Fail != 0 then "eth0 & eth1" else "eth0"
    else if eth1Fail != 0 then "eth1"
    else ""
  }

  /** Which interfaces an error string names. */
  function FailedInterfaces(s: string): (bool, bool)
  {
    if s == "eth0 & eth1" then (true, true)
    else if s == "eth0" then (true, false)
    else if s == "eth1" then (false, true)
    else (false, false)
  }

  /** The error string names exactly the interfaces whose ping failed. */
  lemma ErrorStringNames(eth0Fail: int, eth1Fail: int)
    ensures FailedInterfaces(ErrorString(eth0Fail, eth1Fail)) == (eth0Fail != 0, eth1Fail != 0)
  {
  }
}
