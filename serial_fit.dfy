/**
 * The sequential decisions of the serial test engine around the frame
 * sweep: reading the configuration records into the test table, finding
 * the concurrent test on the same cable, adopting a descriptor another
 * test already opened, filtering the baud rates, deciding who initialises
 * a shared cable, running a receiver over its rates and iterations, and
 * the failure summary of a whole run.
 */
module SerialFit {
  import opened FitTypes
  import opened SerialDefs
  import opened SerialRx
  import opened SerialLoop

  // ---------------------------------------------------------------------
  // Configuration records (`spConfigDat`)
  // ---------------------------------------------------------------------

  /** One record of the configuration file: receive and transmit port, frame-size range and iteration count. */
  datatype ConfigLine = ConfigLine(devR: string, devW: string, minFrame: nat, maxFrame: nat, iter: nat)

  /** A record whose first token starts with `#` is a comment. */
  predicate IsComment(c: ConfigLine)
  {
    c.devR != [] && c.devR[0] == '#'
  }

  /** A requested frame size: kept when in `1..MAX_TRANSFER`, otherwise replaced by `MIN(size, MAX_TRANSFER)`. */
  function ClampFrame(v: nat): (r: nat)
    ensures r <= MAX_TRANSFER
    ensures v <= MAX_TRANSFER ==> r == v
    ensures v > MAX_TRANSFER ==> r == MAX_TRANSFER
  {
    if v <= MAX_TRANSFER && v > 0 then v
    else if v < MAX_TRANSFER then v else MAX_TRANSFER
  }

  /** The part of a table entry that the configuration sets. */
  datatype Setup = Setup(stR: SpState, stW: SpState, minFrame: nat, maxFrame: nat, iter: nat)

  function SetupOf(t: SerialTest): Setup
    reads t
  {
    Setup(t.stR, t.stW, t.minFrame, t.maxFrame, t.iter)
  }

  /** The part of a table entry that the configuration leaves alone. */
  datatype Rest = Rest(comSz: nat, fdR: int, fdW: int, rate: nat, tallies: seq<Tally>)

  function RestOf(t: SerialTest): Rest
    reads t
  {
    Rest(t.comSz, t.fdR, t.fdW, t.rate, t.tallies)
  }

  /** Whether record `c` configures the entry for ports `devR` and `devW`. */
  predicate Names(c: ConfigLine, devR: string, devW: string)
  {
    !IsComment(c) && c.devR == devR && c.devW == devW
  }

  /** The entry `s` of ports `devR`/`devW` after record `c`. */
  function ConfigStep(s: Setup, devR: string, devW: string, c: ConfigLine): Setup
  {
    if Names(c, devR, devW) then Setup(Scheduled, Scheduled, ClampFrame(c.minFrame), ClampFrame(c.maxFrame), c.iter)
    else s
  }

  /** The entry `s` of ports `devR`/`devW` after the records `lines`, in file order. */
  function ConfigFold(s: Setup, devR: string, devW: string, lines: seq<ConfigLine>): Setup
  {
    if lines == [] then s
    else ConfigStep(ConfigFold(s, devR, devW, lines[..|lines| - 1]), devR, devW, lines[|lines| - 1])
  }

  /** The last record naming exactly the ports `devR` and `devW`, if any. */
  function LastMatch(devR: string, devW: string, lines: seq<ConfigLine>): (m: Option<ConfigLine>)
    ensures m.Some? ==> Names(m.value, devR, devW) && m.value in lines
    ensures m.None? ==> forall j :: 0 <= j < |lines| ==> !Names(lines[j], devR, devW)
  {
    if lines == [] then None
    else if Names(lines[|lines| - 1], devR, devW) then Some(lines[|lines| - 1])
    else LastMatch(devR, devW, lines[..|lines| - 1])
  }

  /**
   * Only records naming both of an entry's ports touch it; the last of them
   * schedules both sides and sets the clamped frame sizes and the iteration
   * count, and an entry no record names keeps its setup.
   */
  lemma {:induction false} LastRecordWins(s: Setup, devR: string, devW: string, lines: seq<ConfigLine>)
    ensures LastMatch(devR, devW, lines).None? ==> ConfigFold(s, devR, devW, lines) == s
    ensures LastMatch(devR, devW, lines).Some? ==>
      var c := LastMatch(devR, devW, lines).value;
      ConfigFold(s, devR, devW, lines) == Setup(Scheduled, Scheduled, ClampFrame(c.minFrame), ClampFrame(c.maxFrame), c.iter)
  {
    if lines != [] {
      LastRecordWins(s, devR, devW, lines[..|lines| - 1]);
    }
  }

  /** The entries of the test table are distinct objects. */
  predicate Distinct(table: seq<SerialTest>)
  {
    forall i, j :: 0 <= i < j < |table| ==> table[i] != table[j]
  }

  /** Every entry of the test table is valid. */
  ghost predicate AllValid(table: seq<SerialTest>)
    reads set i | 0 <= i < |table| :: table[i]
  {
    forall i :: 0 <= i < |table| ==> table[i].Valid()
  }

  /** Record `c` applied to one entry. */
  method ScheduleEntry(t: SerialTest, c: ConfigLine)
    requires t.Valid()
    modifies t
    ensures t.Valid()
    ensures SetupOf(t) == ConfigStep(old(SetupOf(t)), t.devR, t.devW, c)
    ensures RestOf(t) == old(RestOf(t))
  {
    if Names(c, t.devR, t.devW) {
      t.stR, t.stW := Scheduled, Scheduled;
      t.minFrame, t.maxFrame := ClampFrame(c.minFrame), ClampFrame(c.maxFrame);
      t.iter := c.iter;
    }
  }

  /** One non-comment record applied to every entry of the table. */
  method ApplyRecord(table: seq<SerialTest>, c: ConfigLine)
    requires Distinct(table) && AllValid(table)
    modifies set i | 0 <= i < |table| :: table[i]
    ensures Distinct(table) && AllValid(table)
    ensures forall i :: 0 <= i < |table| ==>
      SetupOf(table[i]) == ConfigStep(old(SetupOf(table[i])), table[i].devR, table[i].devW, c)
    ensures forall i :: 0 <= i < |table| ==> RestOf(table[i]) == old(RestOf(table[i]))
  {
    var k := 0;
    while k < |table|
      invariant 0 <= k <= |table|
      invariant Distinct(table) && AllValid(table)
      invariant forall i :: 0 <= i < k ==>
        SetupOf(table[i]) == ConfigStep(old(SetupOf(table[i])), table[i].devR, table[i].devW, c)
      invariant forall i :: k <= i < |table| ==> SetupOf(table[i]) == old(SetupOf(table[i]))
      invariant forall i :: 0 <= i < |table| ==> RestOf(table[i]) == old(RestOf(table[i]))
    {
      ScheduleEntry(table[k], c);
      k := k + 1;
    }
  }

  /**
   * `spConfigDat`: a file that cannot be opened gives -1 and changes
   * nothing; otherwise every record is applied in file order and the
   * result is 0.
   */
  method ConfigureTable(table: seq<SerialTest>, file: Option<seq<ConfigLine>>) returns (status: int)
    requires Distinct(table) && AllValid(table)
    modifies set i | 0 <= i < |table| :: table[i]
    ensures Distinct(table) && AllValid(table)
    ensures status == (if file.None? then -1 else 0)
    ensures forall i :: 0 <= i < |table| ==>
      SetupOf(table[i]) == (if file.None? then old(SetupOf(table[i]))
                            else ConfigFold(old(SetupOf(table[i])), table[i].devR, table[i].devW, file.value))
    ensures forall i :: 0 <= i < |table| ==> RestOf(table[i]) == old(RestOf(table[i]))
  {
    if file.None? {
      return -1;
    }
    var lines := file.value;
    var n := 0;
    while n < |lines|
      invariant 0 <= n <= |lines|
      invariant Distinct(table) && AllValid(table)
      invariant forall i :: 0 <= i < |table| ==>
        SetupOf(table[i]) == ConfigFold(old(SetupOf(table[i])), table[i].devR, table[i].devW, lines[..n])
      invariant forall i :: 0 <= i < |table| ==> RestOf(table[i]) == old(RestOf(table[i]))
    {
      assert lines[..n + 1][..n] == lines[..n];
      if !IsComment(lines[n]) {
        ApplyRecord(table, lines[n]);
      }
      n := n + 1;
    }
    assert lines[..n] == lines;
    return 0;
  }

  // ---------------------------------------------------------------------
  // Table scans: the concurrent test and descriptor adoption
  // ---------------------------------------------------------------------

  /** What a table scan reads of an entry. */
  datatype Entry = Entry(devR: string, devW: string, stR: SpState, stW: SpState, fdR: int, fdW: int)

  function EntryOf(t: SerialTest): Entry
    reads t
  {
    Entry(t.devR, t.devW, t.stR, t.stW, t.fdR, t.fdW)
  }

  /** An entry both of whose sides are scheduled or running. */
  predicate Active(e: Entry)
  {
    e.stR != Unscheduled && e.stW != Unscheduled
  }

  /**
   * What a scan on behalf of entry `me` looks for: the concurrent test on
   * the same cable, a test that already opened this test's receive port for
   * transmitting, or one that already opened its transmit port for
   * receiving. The transmit-side scan as written tests the schedule state of
   * `me` instead of that of the entry scanned.
   */
  datatype Wanted = ConcurrentTest | RxDonor | TxDonorAsWritten | TxDonor

  /** Whether entry `i` is what the scan for `me` looks for. */
  predicate Matches(entries: seq<Entry>, me: nat, i: nat, w: Wanted)
    requires me < |entries| && i < |entries|
  {
    var e, m := entries[i], entries[me];
    i != me &&
    match w
    case ConcurrentTest => Active(e) && e.devR == m.devW && e.devW == m.devR
    case RxDonor => Active(e) && m.devR == e.devW && e.fdW > 0
    case TxDonorAsWritten => Active(m) && m.devW == e.devR && e.fdR > 0
    case TxDonor => Active(e) && m.devW == e.devR && e.fdR > 0
  }

  /** The first entry from `i` on that the scan for `me` accepts. */
  function FirstFrom(entries: seq<Entry>, me: nat, w: Wanted, i: nat): (r: Option<nat>)
    requires me < |entries|
    ensures r.Some? ==> i <= r.value < |entries| && Matches(entries, me, r.value, w)
    ensures r.Some? ==> forall j :: i <= j < r.value ==> !Matches(entries, me, j, w)
    ensures r.None? ==> forall j :: i <= j < |entries| ==> !Matches(entries, me, j, w)
    decreases |entries| - i
  {
    if i >= |entries| then None
    else if Matches(entries, me, i, w) then Some(i)
    else FirstFrom(entries, me, w, i + 1)
  }

  /** A table scan: the first entry that the scan for `me` accepts, in table order. */
  method Scan(entries: seq<Entry>, me: nat, w: Wanted) returns (r: Option<nat>)
    requires me < |entries|
    ensures r == FirstFrom(entries, me, w, 0)
  {
    var i := 0;
    while i < |entries|
      invariant 0 <= i <= |entries|
      invariant FirstFrom(entries, me, w, i) == FirstFrom(entries, me, w, 0)
    {
      if Matches(entries, me, i, w) {
        return Some(i);
      }
      i := i + 1;
    }
    return None;
  }

  /**
   * `getConcurrentTest`: the first scheduled entry, other than `me`, that
   * receives on the port `me` transmits on and transmits on the port `me`
   * receives on; none if there is no such entry.
   */
  method GetConcurrentTest(entries: seq<Entry>, me: nat) returns (r: Option<nat>)
    requires me < |entries|
    ensures r.Some? ==>
      && r.value < |entries| && r.value != me && Active(entries[r.value])
      && entries[r.value].devR == entries[me].devW && entries[r.value].devW == entries[me].devR
    ensures r.Some? ==> forall j :: 0 <= j < r.value ==> !Matches(entries, me, j, ConcurrentTest)
    ensures r.None? ==> forall j :: 0 <= j < |entries| ==> !Matches(entries, me, j, ConcurrentTest)
  {
    r := Scan(entries, me, ConcurrentTest);
  }

  /** Two active tests on the same cable in opposite directions find each other. */
  lemma PeersFindEachOther(entries: seq<Entry>, a: nat, b: nat)
    requires a < |entries| && b < |entries| && Active(entries[a])
    ensures Matches(entries, a, b, ConcurrentTest) ==> Matches(entries, b, a, ConcurrentTest)
  {
  }

  /** The descriptor the scan `w` adopts from entry `e`. */
  function DonatedFd(e: Entry, w: Wanted): int
  {
    if w == RxDonor then e.fdW else e.fdR
  }

  /** The descriptor the scan `w` for `me` adopts, if it finds an entry. */
  function Adopted(entries: seq<Entry>, me: nat, w: Wanted): (fd: Option<int>)
    requires me < |entries|
    ensures fd.Some? ==> fd.value > 0 || w == ConcurrentTest
  {
    match FirstFrom(entries, me, w, 0)
    case None => None
    case Some(i) => Some(DonatedFd(entries[i], w))
  }

  /** How opening the two ports of a test ended. */
  datatype Link = Linked(fdR: int, fdW: int) | NotLinked(ret: FtRet)

  /**
   * Opening the ports of `me`, where `openR` and `openW` are what `open`
   * returned (-1 on failure; `openW` is not used when both names are
   * equal). A receive port that cannot be opened is an rx error for a
   * single-port loopback and is otherwise adopted from a test that opened
   * it for transmitting; failing that the test fails without a status
   * update. A transmit port that cannot be opened is adopted by the scan
   * `txScan`; failing that it is a tx error. A single-port loopback shares
   * one descriptor.
   */
  function OpenPorts(entries: seq<Entry>, me: nat, openR: int, openW: int, txScan: Wanted): (l: Link)
    requires me < |entries| && openR >= -1 && openW >= -1
    requires txScan == TxDonor || txScan == TxDonorAsWritten
    ensures l.NotLinked? ==> l.ret in {FtRxError, FtFail, FtTxError}
    ensures l.Linked? ==> l.fdR != -1 && l.fdW != -1
    ensures l.Linked? && entries[me].devR == entries[me].devW ==> l.fdR == l.fdW
  {
    var m := entries[me];
    if openR == -1 && m.devR == m.devW then NotLinked(FtRxError)
    else
      var fdR := if openR != -1 then Some(openR) else Adopted(entries, me, RxDonor);
      if fdR.None? then NotLinked(FtFail)
      else if m.devR == m.devW then Linked(fdR.value, fdR.value)
      else if openW != -1 then Linked(fdR.value, openW)
      else
        match Adopted(entries, me, txScan)
        case None => NotLinked(FtTxError)
        case Some(fd) => Linked(fdR.value, fd)
  }

  /**
   * The transmit-side adoption scan as written accepts an unscheduled entry
   * still holding a receive descriptor, which the scan as intended (and
   * the receive-side scan) skips.
   */
  lemma TxScanAdoptsUnscheduled()
    ensures var entries := [Entry("sp1", "sp2", Scheduled, Scheduled, 3, -1),
                            Entry("sp2", "sp1", Unscheduled, Unscheduled, 5, -1)];
      && OpenPorts(entries, 0, 3, -1, TxDonorAsWritten) == Linked(3, 5)
      && OpenPorts(entries, 0, 3, -1, TxDonor) == NotLinked(FtTxError)
  {
    var entries := [Entry("sp1", "sp2", Scheduled, Scheduled, 3, -1),
                    Entry("sp2", "sp1", Unscheduled, Unscheduled, 5, -1)];
    assert Matches(entries, 0, 1, TxDonorAsWritten);
    assert !Matches(entries, 0, 1, TxDonor);
    assert FirstFrom(entries, 0, TxDonor, 2) == None;
  }

  /** For a scheduled test the two transmit-side scans differ only on entries that are not active. */
  lemma TxScansAgreeOnActive(entries: seq<Entry>, me: nat, i: nat)
    requires me < |entries| && i < |entries| && Active(entries[me])
    ensures Active(entries[i]) ==> (Matches(entries, me, i, TxDonorAsWritten) <==> Matches(entries, me, i, TxDonor))
    ensures Matches(entries, me, i, TxDonor) ==> Matches(entries, me, i, TxDonorAsWritten)
  {
  }

  /**
   * The two transmit-side scans accept the same entries for an active test
   * as long as no entry that is not active holds a receive descriptor.
   */
  lemma {:induction false} TxScansAgreeFrom(entries: seq<Entry>, me: nat, i: nat)
    requires me < |entries| && Active(entries[me])
    requires forall j :: 0 <= j < |entries| && !Active(entries[j]) ==> entries[j].fdR <= 0
    ensures FirstFrom(entries, me, TxDonorAsWritten, i) == FirstFrom(entries, me, TxDonor, i)
    decreases |entries| - i
  {
    if i < |entries| {
      TxScansAgreeFrom(entries, me, i + 1);
    }
  }

  /**
   * The transmit-side scan as written is latent: descriptors start at -1,
   * and only scheduled entries open ports, so while every entry that is not
   * active still holds no receive descriptor, opening the ports of an
   * active test ends the same with either scan.
   */
  lemma TxScanLatent(entries: seq<Entry>, me: nat, openR: int, openW: int)
    requires me < |entries| && Active(entries[me]) && openR >= -1 && openW >= -1
    requires forall j :: 0 <= j < |entries| && !Active(entries[j]) ==> entries[j].fdR <= 0
    ensures OpenPorts(entries, me, openR, openW, TxDonorAsWritten) == OpenPorts(entries, me, openR, openW, TxDonor)
  {
    TxScansAgreeFrom(entries, me, 0);
  }

  /**
   * `spExtLpback` opening the ports of test `t`, entry `me` of the table
   * `entries`: the descriptors become those of `OpenPorts` with the
   * intended transmit-side scan, or the receiver stops with its outcome.
   */
  method OpenLink(t: SerialTest, entries: seq<Entry>, me: nat, openR: int, openW: int) returns (stop: Option<FtRet>)
    requires me < |entries| && entries[me] == EntryOf(t) && openR >= -1 && openW >= -1
    modifies t`fdR, t`fdW
    ensures stop.None? <==> OpenPorts(entries, me, openR, openW, TxDonor).Linked?
    ensures stop.Some? ==> OpenPorts(entries, me, openR, openW, TxDonor) == NotLinked(stop.value)
    ensures stop.None? ==> OpenPorts(entries, me, openR, openW, TxDonor) == Linked(t.fdR, t.fdW)
  {
    t.fdR := openR;
    if t.fdR == -1 {
      if t.devR == t.devW {
        return Some(FtRxError);
      }
      var i := Scan(entries, me, RxDonor);
      if i.Some? {
        t.fdR := entries[i.value].fdW;
      }
      if t.fdR == -1 {
        return Some(FtFail);
      }
    }
    if t.devR != t.devW {
      t.fdW := openW;
      if t.fdW == -1 {
        var i := Scan(entries, me, TxDonor);
        if i.Some? {
          t.fdW := entries[i.value].fdR;
        }
        if t.fdW == -1 {
          return Some(FtTxError);
        }
      }
    } else {
      t.fdW := t.fdR;
    }
    return None;
  }

  // ---------------------------------------------------------------------
  // Baud-rate filter
  // ---------------------------------------------------------------------

  /**
   * A synchronous cross-connect restricted to the rate all synchronous
   * ports share: one of its ports is sp3s or sp5s, and it is not the
   * sp3s/sp5s pair itself.
   */
  predicate SharedRateOnly(protocol: Protocol, devR: string, devW: string)
  {
    && protocol == ProtSync && devR != devW
    && (devR == "sp3s" || devR == "sp5s" || devW == "sp3s" || devW == "sp5s")
    && !((devR == "sp3s" && devW == "sp5s") || (devR == "sp5s" && devW == "sp3s"))
  }

  /**
   * Whether the test runs at table rate `rate`: a non-zero command-line
   * override must equal the rate's numeric value, and a restricted
   * synchronous cross-connect runs at 153600 only.
   */
  predicate Attempted(override: u32, rate: u32, protocol: Protocol, devR: string, devW: string)
  {
    && (override == 0 || override == MapBaudRate(rate))
    && (!SharedRateOnly(protocol, devR, devW) || rate == SHARED_SYNC_RATE)
  }

  /** The rates of the table `rates` a test runs at, in table order. */
  function AttemptedRates(override: u32, rates: seq<u32>, protocol: Protocol, devR: string, devW: string): (a: seq<u32>)
    ensures forall x :: x in a <==> x in rates && Attempted(override, x, protocol, devR, devW)
  {
    if rates == [] then []
    else (if Attempted(override, rates[0], protocol, devR, devW) then [rates[0]] else [])
         + AttemptedRates(override, rates[1..], protocol, devR, devW)
  }

  /** A self-loop, or any test without an override that is not a restricted cross-connect, runs at every rate of its table. */
  lemma {:induction false} UnrestrictedRunsAll(rates: seq<u32>, protocol: Protocol, devR: string, devW: string)
    requires !SharedRateOnly(protocol, devR, devW)
    ensures AttemptedRates(0, rates, protocol, devR, devW) == rates
  {
    if rates != [] {
      UnrestrictedRunsAll(rates[1..], protocol, devR, devW);
    }
  }

  /** sp1s cross-connected to sp3s runs at 153600 only, although its table has five rates. */
  lemma CrossConnectSharedRate()
    ensures AttemptedRates(0, RateTable("sp1s"), ProtSync, "sp1s", "sp3s") == [SHARED_SYNC_RATE]
  {
    var a := "sp1s";
    var b := "sp3s";
    assert SharedRateOnly(ProtSync, a, b);
    assert RateTable(a) == SYNC_RATES;
    assert AttemptedRates(0, SYNC_RATES[4..], ProtSync, a, b) == [SHARED_SYNC_RATE];
    assert AttemptedRates(0, SYNC_RATES[3..], ProtSync, a, b) == [SHARED_SYNC_RATE];
    assert AttemptedRates(0, SYNC_RATES[2..], ProtSync, a, b) == [SHARED_SYNC_RATE];
  }

  /** The sp3s/sp5s pair is not restricted: it runs at both of sp3s's rates. */
  lemma FastPairRunsBothRates()
    ensures AttemptedRates(0, RateTable("sp3s"), ProtSync, "sp3s", "sp5s") == SYNC_FAST_RATES
  {
    assert RateTable("sp3s") == SYNC_FAST_RATES;
    UnrestrictedRunsAll(SYNC_FAST_RATES, ProtSync, "sp3s", "sp5s");
  }

  // ---------------------------------------------------------------------
  // Who initialises a shared cable
  // ---------------------------------------------------------------------

  /** What a receiver does about port initialisation before a rate's iterations. */
  datatype InitPlan =
    | InitShared        // one port loops back to itself: initialise it
    | InitBoth          // no concurrent test: initialise both ports
    | InitBothAndWake   // the concurrent test waits: initialise both ports and wake it
    | WaitForPeer       // the concurrent test runs: initialise nothing and wait to be woken

  /**
   * The decision of a receiver whose descriptors are equal or not
   * (`sameFd`), given the reader state of the concurrent test on the same
   * cable, if there is one.
   */
  function InitDecision(sameFd: bool, peerReader: Option<SpState>): (plan: InitPlan)
    ensures plan == InitShared <==> sameFd
    ensures plan == WaitForPeer <==> !sameFd && peerReader.Some? && peerReader.value != WaitingForConcurrent
  {
    if sameFd then InitShared
    else match peerReader
      case None => InitBoth
      case Some(st) => if st == WaitingForConcurrent then InitBothAndWake else WaitForPeer
  }

  /** How many ports a plan initialises. */
  function PortsInitialised(plan: InitPlan): nat
  {
    match plan
    case InitShared => 1
    case InitBoth => 2
    case InitBothAndWake => 2
    case WaitForPeer => 0
  }

  /**
   * `spExtLpback` before each rate: the plan for test `t`; a test that waits
   * shows its peer `WaitingForConcurrent` while waiting and afterwards has
   * its reader state back.
   */
  method CoordinateInit(t: SerialTest, peerReader: Option<SpState>) returns (plan: InitPlan, shown: SpState)
    modifies t`stR
    ensures plan == InitDecision(t.fdR == t.fdW, peerReader)
    ensures shown == if plan == WaitForPeer then WaitingForConcurrent else t.stR
    ensures t.stR == old(t.stR)
  {
    plan := InitDecision(t.fdR == t.fdW, peerReader);
    shown := t.stR;
    if plan == WaitForPeer {
      var saved := t.stR;
      t.stR := WaitingForConcurrent;
      shown := t.stR;
      t.stR := saved;
    }
  }

  /**
   * Two tests on one cable: when the first finds the second running and
   * waits, the second finds it waiting, initialises both ports and wakes
   * it; the cable's two ports are initialised once between them.
   */
  lemma Handshake(peerReader: SpState)
    requires peerReader != WaitingForConcurrent
    ensures InitDecision(false, Some(peerReader)) == WaitForPeer
    ensures InitDecision(false, Some(WaitingForConcurrent)) == InitBothAndWake
    ensures PortsInitialised(InitDecision(false, Some(peerReader)))
          + PortsInitialised(InitDecision(false, Some(WaitingForConcurrent))) == 2
  {
  }

  // ---------------------------------------------------------------------
  // The receiver over its rates and iterations
  // ---------------------------------------------------------------------

  /** The parameters of one receiver run: the command-line options and the test's configuration. */
  datatype RunPlan = RunPlan(rxType: nat, useAtc: bool, quickFail: bool, override: u32,
                             protocol: Protocol, devR: string, devW: string, rates: seq<u32>,
                             minFrame: nat, maxFrame: nat, iter: nat)

  function PlanOf(t: SerialTest, rxType: nat, useAtc: bool, quickFail: bool, override: u32): RunPlan
    reads t
  {
    RunPlan(rxType, useAtc, quickFail, override, t.protocol, t.devR, t.devW, t.baudRates, t.minFrame, t.maxFrame, t.iter)
  }

  /** How a run, or the iterations at one rate, ended: with an outcome, or by a transmitter timeout that ends the receiver. */
  datatype RunOutcome = Finished(ret: FtRet) | TimedOut

  /**
   * The iterations `it` onwards at rate `r`, each a frame sweep with the
   * frame scripts `env(r, it)`: a transmitter timeout ends the receiver,
   * and under quick-fail the first failure ends the iterations.
   */
  function IterationsFrom(p: RunPlan, env: (nat, nat) -> seq<FrameScript>, r: nat, it: nat, prev: FtRet): (o: RunOutcome)
    ensures o.Finished? ==> o.ret != FtTxTimeout || prev == FtTxTimeout
    decreases p.iter - it
  {
    if it >= p.iter then Finished(prev)
    else
      var v := LastOr(SweepFrom(p.rxType, p.minFrame, p.maxFrame, p.useAtc, p.quickFail, env(r, it), 0, prev), prev);
      if v == FtTxTimeout then TimedOut
      else if p.quickFail && v != FtPass then Finished(v)
      else IterationsFrom(p, env, r, it + 1, v)
  }

  /**
   * The rates `r` onwards: rates the filter rejects are skipped, a
   * transmitter timeout ends the receiver, and under quick-fail a rate
   * that ends in failure ends the run.
   */
  function RatesFrom(p: RunPlan, env: (nat, nat) -> seq<FrameScript>, r: nat, prev: FtRet): (o: RunOutcome)
    ensures o.Finished? ==> o.ret != FtTxTimeout || prev == FtTxTimeout
    decreases |p.rates| - r
  {
    if r >= |p.rates| then Finished(prev)
    else if !Attempted(p.override, p.rates[r], p.protocol, p.devR, p.devW) then RatesFrom(p, env, r + 1, prev)
    else match IterationsFrom(p, env, r, 0, prev)
      case TimedOut => TimedOut
      case Finished(v) => if p.quickFail && v != FtPass then Finished(v) else RatesFrom(p, env, r + 1, v)
  }

  /** The iterations at the current rate. */
  method RunIterations(t: SerialTest, p: RunPlan, env: (nat, nat) -> seq<FrameScript>, prev: FtRet) returns (o: RunOutcome)
    requires t.Valid() && t.rate < |t.tallies| && prev != FtTxTimeout
    requires p == PlanOf(t, p.rxType, p.useAtc, p.quickFail, p.override)
    modifies t`comSz, t`stR, t.bufR, t.bufW, t`tallies
    ensures t.Valid()
    ensures o == IterationsFrom(p, env, t.rate, 0, prev)
  {
    var it := 0;
    var ret := prev;
    while it < t.iter
      invariant t.Valid() && t.rate < |t.tallies| && ret != FtTxTimeout
      invariant IterationsFrom(p, env, t.rate, it, ret) == IterationsFrom(p, env, t.rate, 0, prev)
      decreases t.iter - it
    {
      var v, vs := t.SweepFrames(p.rxType, t.minFrame, p.useAtc, p.quickFail, env(t.rate, it), 0, ret);
      if v == FtTxTimeout {
        return TimedOut;
      }
      ret := v;
      if p.quickFail && v != FtPass {
        return Finished(v);
      }
      it := it + 1;
    }
    return Finished(ret);
  }

  /**
   * One pass of the rate loop, at rate `r`: skipped when the filter rejects
   * the rate, otherwise its iterations. `stop` says the run ends here, with
   * outcome `o`; otherwise the run goes on from the next rate with `o.ret`.
   */
  method RunRate(t: SerialTest, p: RunPlan, env: (nat, nat) -> seq<FrameScript>, r: nat, prev: FtRet)
    returns (o: RunOutcome, stop: bool)
    requires t.Valid() && r < |t.baudRates| && prev != FtTxTimeout
    requires p == PlanOf(t, p.rxType, p.useAtc, p.quickFail, p.override)
    modifies t`comSz, t`stR, t`rate, t.bufR, t.bufW, t`tallies
    ensures t.Valid() && p == PlanOf(t, p.rxType, p.useAtc, p.quickFail, p.override)
    ensures stop ==> RatesFrom(p, env, r, prev) == o
    ensures !stop ==> o.Finished? && o.ret != FtTxTimeout && RatesFrom(p, env, r, prev) == RatesFrom(p, env, r + 1, o.ret)
  {
    if !Attempted(p.override, t.baudRates[r], t.protocol, t.devR, t.devW) {
      return Finished(prev), false;
    }
    t.rate := r;
    o := RunIterations(t, p, env, prev);
    stop := o.TimedOut? || (p.quickFail && o.ret != FtPass);
  }

  /**
   * `spExtLpback` as receiver, once its ports are open: the outcome is
   * that of `RatesFrom` from the first rate with the initial outcome
   * `ftFail`; a transmitter timeout returns at once, otherwise the reader
   * ends in `ReceiveComplete`.
   */
  method RunReceiver(t: SerialTest, rxType: nat, useAtc: bool, quickFail: bool, override: u32,
                     env: (nat, nat) -> seq<FrameScript>) returns (ret: FtRet)
    requires t.Valid()
    modifies t`comSz, t`stR, t`rate, t.bufR, t.bufW, t`tallies
    ensures t.Valid()
    ensures var o := RatesFrom(old(PlanOf(t, rxType, useAtc, quickFail, override)), env, 0, FtFail);
      && (o.TimedOut? ==> ret == FtTxTimeout)
      && (o.Finished? ==> ret == o.ret && t.stR == ReceiveComplete)
  {
    var p := PlanOf(t, rxType, useAtc, quickFail, override);
    var r := 0;
    ret := FtFail;
    var done := false;
    while r < |t.baudRates| && !done
      invariant t.Valid() && p == PlanOf(t, rxType, useAtc, quickFail, override)
      invariant ret != FtTxTimeout
      invariant !done ==> RatesFrom(p, env, r, ret) == RatesFrom(p, env, 0, FtFail)
      invariant done ==> RatesFrom(p, env, 0, FtFail) == Finished(ret)
      decreases |t.baudRates| - r
    {
      var o, stop := RunRate(t, p, env, r, ret);
      if o.TimedOut? {
        return FtTxTimeout;
      }
      ret := o.ret;
      done := stop;
      r := r + 1;
    }
    t.stR := ReceiveComplete;
  }

  // ---------------------------------------------------------------------
  // The failure summary
  // ---------------------------------------------------------------------

  /** Size of the summary buffer, terminating NUL included. */
  const SUMMARY_SIZE: nat := 512

  /** What the summary reads of one table entry. */
  datatype TestStats = TestStats(devR: string, devW: string, active: bool, rates: seq<u32>, tallies: seq<Tally>)

  function StatsOf(t: SerialTest): TestStats
    reads t
  {
    TestStats(t.devR, t.devW, t.stR != Unscheduled && t.stW != Unscheduled, t.baudRates, t.tallies)
  }

  function StatsList(table: seq<SerialTest>): (l: seq<TestStats>)
    reads set t | t in table
    ensures |l| == |table| && forall i :: 0 <= i < |table| ==> l[i] == StatsOf(table[i])
  {
    if table == [] then [] else [StatsOf(table[0])] + StatsList(table[1..])
  }

  /** A rate with a receive or transmit failure. */
  predicate Failed(tl: Tally)
  {
    tl.rxNG != 0 || tl.txNG != 0
  }

  /** The entry for one failing rate: "devW->devR@rate, ". */
  function Piece(devW: string, devR: string, rate: u32): string
  {
    devW + "->" + devR + "@" + Decimal(MapBaudRate(rate) as nat) + ", "
  }

  /** Whether rate `k` of `st` has counters to read. */
  predicate HasRate(st: TestStats, k: nat)
  {
    k < |st.rates| && k < |st.tallies|
  }

  /** The pieces of the failing rates of `st` from rate `k` on, with no limit on length. */
  function RatePieces(st: TestStats, k: nat): (r: string)
    ensures r == [] <==> forall m :: k <= m && HasRate(st, m) ==> !Failed(st.tallies[m])
    decreases |st.rates| - k
  {
    if !HasRate(st, k) then []
    else (if Failed(st.tallies[k]) then Piece(st.devW, st.devR, st.rates[k]) else [])
         + RatePieces(st, k + 1)
  }

  /** The pieces of every active entry from entry `i` on, with no limit on length. */
  function AllPieces(stats: seq<TestStats>, i: nat): string
    decreases |stats| - i
  {
    if i >= |stats| then []
    else (if stats[i].active then RatePieces(stats[i], 0) else []) + AllPieces(stats, i + 1)
  }

  /**
   * The summary after rates `k` onwards of `st`, starting from `acc`: a
   * failing rate's piece is appended while it fits, and the first piece
   * that does not fit ends this entry's rates.
   */
  function RatesSummary(st: TestStats, k: nat, acc: string): (r: string)
    ensures |acc| < SUMMARY_SIZE ==> |r| < SUMMARY_SIZE
    ensures acc <= r
    decreases |st.rates| - k
  {
    if !HasRate(st, k) then acc
    else if !Failed(st.tallies[k]) then RatesSummary(st, k + 1, acc)
    else
      var p := Piece(st.devW, st.devR, st.rates[k]);
      if |acc| + |p| < SUMMARY_SIZE then RatesSummary(st, k + 1, acc + p) else acc
  }

  /** The summary over entries `i` onwards, skipping entries that did not run. */
  function Summary(stats: seq<TestStats>, i: nat, acc: string): (r: string)
    ensures |acc| < SUMMARY_SIZE ==> |r| < SUMMARY_SIZE
    ensures acc <= r
    decreases |stats| - i
  {
    if i >= |stats| then acc
    else Summary(stats, i + 1, if stats[i].active then RatesSummary(stats[i], 0, acc) else acc)
  }

  /** When all of an entry's pieces fit, the summary lists every one of them. */
  lemma {:induction false} RatesSummaryComplete(st: TestStats, k: nat, acc: string)
    requires |acc| + |RatePieces(st, k)| < SUMMARY_SIZE
    ensures RatesSummary(st, k, acc) == acc + RatePieces(st, k)
    decreases |st.rates| - k
  {
    if HasRate(st, k) {
      if Failed(st.tallies[k]) {
        var p := Piece(st.devW, st.devR, st.rates[k]);
        assert RatePieces(st, k) == p + RatePieces(st, k + 1);
        RatesSummaryComplete(st, k + 1, acc + p);
        Regroup(acc, p, RatePieces(st, k + 1));
      } else {
        assert RatePieces(st, k) == RatePieces(st, k + 1);
        RatesSummaryComplete(st, k + 1, acc);
      }
    } else {
      assert acc + [] == acc;
    }
  }

  /**
   * When every failure's piece fits in the buffer, the summary is exactly
   * the pieces of all failing rates of all tests that ran, in table order;
   * in particular it is empty when nothing failed.
   */
  lemma {:induction false} SummaryComplete(stats: seq<TestStats>, i: nat, acc: string)
    requires |acc| + |AllPieces(stats, i)| < SUMMARY_SIZE
    ensures Summary(stats, i, acc) == acc + AllPieces(stats, i)
    decreases |stats| - i
  {
    if i < |stats| {
      if stats[i].active {
        var mine := RatePieces(stats[i], 0);
        assert AllPieces(stats, i) == mine + AllPieces(stats, i + 1);
        RatesSummaryComplete(stats[i], 0, acc);
        SummaryComplete(stats, i + 1, acc + mine);
        Regroup(acc, mine, AllPieces(stats, i + 1));
      } else {
        assert AllPieces(stats, i) == AllPieces(stats, i + 1);
        SummaryComplete(stats, i + 1, acc);
      }
    } else {
      assert acc + [] == acc;
    }
  }

  /** With no failure in any test that ran there are no pieces. */
  lemma {:induction false} NoPiecesWithoutFailure(stats: seq<TestStats>, i: nat)
    requires forall n: nat, m: nat :: i <= n < |stats| && stats[n].active && HasRate(stats[n], m) ==> !Failed(stats[n].tallies[m])
    ensures AllPieces(stats, i) == []
    decreases |stats| - i
  {
    if i < |stats| {
      NoPiecesWithoutFailure(stats, i + 1);
    }
  }

  /** A run in which nothing failed reports an empty summary. */
  lemma NothingFailedEmptySummary(stats: seq<TestStats>)
    requires forall n: nat, m: nat :: 0 <= n < |stats| && stats[n].active && HasRate(stats[n], m) ==> !Failed(stats[n].tallies[m])
    ensures Summary(stats, 0, []) == []
  {
    NoPiecesWithoutFailure(stats, 0);
    SummaryComplete(stats, 0, []);
  }

  /**
   * `spMonitor`'s closing report: the failing rates of every test that ran,
   * as "devW->devR@rate, " pieces, as many as fit in the buffer.
   */
  method FailureSummary(table: seq<SerialTest>) returns (summary: string)
    ensures summary == Summary(StatsList(table), 0, [])
  {
    ghost var stats := StatsList(table);
    summary := [];
    var i := 0;
    while i < |table|
      invariant i <= |table|
      invariant Summary(stats, i, summary) == Summary(stats, 0, [])
    {
      var t := table[i];
      if t.stR != Unscheduled && t.stW != Unscheduled {
        ghost var st := StatsOf(t);
        ghost var goal := RatesSummary(st, 0, summary);
        var k := 0;
        var full := false;
        while !full && k < |t.baudRates| && k < |t.tallies|
          invariant !full ==> RatesSummary(st, k, summary) == goal
          invariant full ==> summary == goal
          decreases |t.baudRates| - k, !full
        {
          if t.tallies[k].rxNG != 0 || t.tallies[k].txNG != 0 {
            var p := Piece(t.devW, t.devR, t.baudRates[k]);
            if |summary| + |p| < SUMMARY_SIZE {
              summary := summary + p;
            } else {
              full := true;
            }
          }
          if !full {
            k := k + 1;
          }
        }
      }
      i := i + 1;
    }
  }
}
