/**
 * `serialEchoFit`: a single-process serial test that sends a frame from
 * the transmit port to the receive port and, when it arrives intact, sends
 * it back the other way. The options and the configuration file choose the
 * ports, protocol, rate, frame size and iteration count; each outcome is
 * reported to the results record as it happens.
 */
module SerialEcho {
  import opened FitTypes
  import opened SerialDefs
  import opened SerialRx
  import opened SerialLoop
  import opened SerialSingle

  // ---------------------------------------------------------------------
  // Rates
  // ---------------------------------------------------------------------

  /**
   * `mapBaudTermios`: the termios speed code of one of the eight standard
   * asynchronous rates; any other number (153600 and 614400 among them)
   * passes through unchanged.
   */
  function MapBaudTermios(baud: u32): (r: u32)
    ensures forall i :: 0 <= i < |STANDARD_RATES| && baud == STANDARD_RATES[i] ==> r == SPEED_CODES[i]
    ensures baud !in STANDARD_RATES ==> r == baud
  {
    if baud == 1200 then B1200
    else if baud == 2400 then B2400
    else if baud == 4800 then B4800
    else if baud == 9600 then B9600
    else if baud == 19200 then B19200
    else if baud == 38400 then B38400
    else if baud == 57600 then B57600
    else if baud == 115200 then B115200
    else baud
  }

  /**
   * `mapBaudTermios` and `mapBaudRate` are inverse on the eight standard
   * rates and their codes; a number that is neither passes through both.
   */
  lemma TermiosRoundTrip(baud: u32)
    ensures baud in STANDARD_RATES ==> MapBaudRate(MapBaudTermios(baud)) == baud
    ensures baud in SPEED_CODES ==> MapBaudTermios(MapBaudRate(baud)) == baud
    ensures baud !in STANDARD_RATES && baud !in SPEED_CODES ==>
      MapBaudTermios(baud) == baud && MapBaudRate(baud) == baud
  {
    if baud in STANDARD_RATES {
      var i :| 0 <= i < |STANDARD_RATES| && STANDARD_RATES[i] == baud;
      assert MapBaudTermios(baud) == SPEED_CODES[i];
    }
    if baud in SPEED_CODES {
      var i :| 0 <= i < |SPEED_CODES| && SPEED_CODES[i] == baud;
      assert MapBaudRate(baud) == STANDARD_RATES[i];
    }
  }

  // ---------------------------------------------------------------------
  // Options
  // ---------------------------------------------------------------------

  /** The settings the options build: protocol, rate (a termios code or a number), device paths, frame size, iterations, flow control. */
  datatype EchoSettings = EchoSettings(protocol: Protocol, baud: u32, devR: string, devW: string,
                                       comSz: nat, iter: nat, flow: bool)

  /** The settings before any option: no protocol or rate yet, /dev/sp8 both ways, 32-byte frames, two iterations. */
  const ECHO_DEFAULTS := EchoSettings(ProtNone, 0, "/dev/sp8", "/dev/sp8", 32, 2, false)

  /**
   * One option applied to the settings. A configuration file picks the
   * protocol by the receive port's name and sets the default rate of that
   * protocol only if no rate is set yet; `-b` is turned into a termios code
   * only if an asynchronous configuration was already read.
   */
  function EchoStep(s: EchoSettings, opt: SerialOption): Parsed<EchoSettings>
  {
    match opt
    case Help => Exited
    case Unknown => Exited
    case ConfigFile(None) => ConfigMissing
    case ConfigFile(Some(rec)) =>
      var sync := IsSyncName(rec.devR);
      Run(s.(protocol := if sync then ProtSync else ProtAsync,
             baud := if s.baud != 0 then s.baud else if sync then SHARED_SYNC_RATE else B115200,
             devR := DevPath(rec.devR), devW := DevPath(rec.devW),
             comSz := ClampSize(rec.comSz), iter := rec.iter))
    case Iterations(n) => Run(s.(iter := n as nat))
    case FlowControl => Run(s.(flow := true))
    case Baud(n) => Run(s.(baud := if s.protocol == ProtAsync then MapBaudTermios(n) else n))
  }

  /** The options from `i` on applied to `s`; parsing stops at the first option that exits or fails. */
  function EchoFrom(s: EchoSettings, opts: seq<SerialOption>, i: nat): Parsed<EchoSettings>
    decreases |opts| - i
  {
    if i >= |opts| then Run(s)
    else match EchoStep(s, opts[i])
      case Run(s') => EchoFrom(s', opts, i + 1)
      case Exited => Exited
      case ConfigMissing => ConfigMissing
  }

  /** The settings the whole command line gives; any argument that is not an option shows the usage text and exits. */
  function EchoParse(opts: seq<SerialOption>, nonOptions: nat): Parsed<EchoSettings>
  {
    match EchoFrom(ECHO_DEFAULTS, opts, 0)
    case Run(s) => if nonOptions > 0 then Exited else Run(s)
    case other => other
  }

  /** The `getopt` loop of `serialEchoFit`. */
  method ParseEchoOptions(opts: seq<SerialOption>, nonOptions: nat) returns (p: Parsed<EchoSettings>)
    ensures p == EchoParse(opts, nonOptions)
  {
    var s := ECHO_DEFAULTS;
    var i := 0;
    while i < |opts|
      invariant i <= |opts|
      invariant EchoFrom(s, opts, i) == EchoFrom(ECHO_DEFAULTS, opts, 0)
    {
      var step := EchoStep(s, opts[i]);
      if !step.Run? {
        return step;
      }
      s := step.settings;
      i := i + 1;
    }
    p := if nonOptions > 0 then Exited else Run(s);
  }

  /** Every option keeps the frame size within `MAX_COMM_SZ`. */
  lemma {:induction false} EchoSizeBounded(s: EchoSettings, opts: seq<SerialOption>, i: nat)
    requires s.comSz <= MAX_COMM_SZ
    ensures EchoFrom(s, opts, i).Run? ==> EchoFrom(s, opts, i).settings.comSz <= MAX_COMM_SZ
    decreases |opts| - i
  {
    if i < |opts| {
      var step := EchoStep(s, opts[i]);
      if step.Run? {
        EchoSizeBounded(step.settings, opts, i + 1);
      }
    }
  }

  /**
   * A configuration file sets the default rate of its protocol, 153600 for
   * a four-character (synchronous) receive port and 115200 otherwise,
   * unless `-b` set a rate before it, which is kept.
   */
  lemma ConfigDefaultRate(rec: ConfigRecord, b: u32)
    requires b != 0
    ensures EchoParse([ConfigFile(Some(rec))], 0)
         == Run(ConfiguredWith(ECHO_DEFAULTS, rec, if IsSyncName(rec.devR) then SHARED_SYNC_RATE else B115200))
    ensures EchoParse([Baud(b), ConfigFile(Some(rec))], 0)
         == Run(ConfiguredWith(ECHO_DEFAULTS, rec, b))
  {
    var opts := [ConfigFile(Some(rec))];
    assert EchoFrom(ECHO_DEFAULTS, opts, 0) == EchoFrom(EchoStep(ECHO_DEFAULTS, opts[0]).settings, opts, 1);
    var opts' := [Baud(b), ConfigFile(Some(rec))];
    var s1 := ECHO_DEFAULTS.(baud := b);
    assert EchoFrom(ECHO_DEFAULTS, opts', 0) == EchoFrom(s1, opts', 1);
    assert EchoFrom(s1, opts', 1) == EchoFrom(EchoStep(s1, opts'[1]).settings, opts', 2);
  }

  /** The settings a configuration record gives, starting from `s`, with the rate `baud`. */
  function ConfiguredWith(s: EchoSettings, rec: ConfigRecord, baud: u32): EchoSettings
  {
    s.(protocol := if IsSyncName(rec.devR) then ProtSync else ProtAsync, baud := baud,
       devR := DevPath(rec.devR), devW := DevPath(rec.devW), comSz := ClampSize(rec.comSz), iter := rec.iter)
  }

  /**
   * The meaning of `-b` depends on where it stands: after an asynchronous
   * configuration 9600 becomes the code B9600, before it the number 9600
   * is kept as it is.
   */
  lemma BaudOptionOrderMatters()
    ensures var rec := ConfigRecord("sp2", "sp1", 1, 32, 10);
      && EchoParse([ConfigFile(Some(rec)), Baud(9600)], 0) == Run(ConfiguredWith(ECHO_DEFAULTS, rec, B9600))
      && EchoParse([Baud(9600), ConfigFile(Some(rec))], 0) == Run(ConfiguredWith(ECHO_DEFAULTS, rec, 9600))
  {
    var rec := ConfigRecord("sp2", "sp1", 1, 32, 10);
    ConfigDefaultRate(rec, 9600);
    var opts := [ConfigFile(Some(rec)), Baud(9600)];
    var s1 := ConfiguredWith(ECHO_DEFAULTS, rec, B115200);
    assert EchoFrom(ECHO_DEFAULTS, opts, 0) == EchoFrom(s1, opts, 1);
    assert EchoFrom(s1, opts, 1) == EchoFrom(EchoStep(s1, opts[1]).settings, opts, 2);
  }

  // ---------------------------------------------------------------------
  // The echo loop
  // ---------------------------------------------------------------------

  /** One iteration: the forward leg and the return leg. */
  datatype EchoRound = EchoRound(forward: Leg, back: Leg)

  /** The iteration `i`; past the given ones every write is whole and the line stays silent. */
  function RoundAt(rounds: seq<EchoRound>, i: nat, sz: nat): EchoRound
  {
    if i < |rounds| then rounds[i] else EchoRound(Leg(Wrote(sz), Line([], [])), Leg(Wrote(sz), Line([], [])))
  }

  /** The select of the receiver, which names the read descriptor `fdR` instead of the receiving one: it watches descriptors below `fdR + 1` only. */
  predicate SelectWatchesAsWritten(fdRx: int, fdR: int)
  {
    fdRx < fdR + 1
  }

  /**
   * The outcomes one iteration reports, and whether it ends the loop: a
   * failed or short write ends it; the forward frame is judged, and only a
   * passing one is sent back and judged again. `backWatched` says whether
   * the return leg's select watches the port it reads.
   */
  function RoundOutcomes(r: EchoRound, sz: nat, backWatched: bool): (o: (seq<FtRet>, bool))
    ensures 1 <= |o.0| <= 2
    ensures |o.0| == 2 ==> o.0[0] == FtPass
  {
    var frame := FramePattern(sz, false);
    match WriteFailure(r.forward.write, sz)
    case Some(t) => ([t], true)
    case None =>
      var v := Verdict(Receive(r.forward.line, true, sz), frame);
      if v != FtPass then ([v], false)
      else match WriteFailure(r.back.write, sz)
        case Some(t) => ([v, t], true)
        case None => ([v, Verdict(Receive(r.back.line, backWatched, sz), frame)], false)
  }

  /** The outcomes the iterations `i` onwards report. */
  function EchoOutcomes(rounds: seq<EchoRound>, i: nat, iter: nat, sz: nat, backWatched: bool): seq<FtRet>
    decreases iter - i
  {
    if i >= iter then []
    else
      var o := RoundOutcomes(RoundAt(rounds, i, sz), sz, backWatched);
      o.0 + (if o.1 then [] else EchoOutcomes(rounds, i + 1, iter, sz, backWatched))
  }

  /** A forward frame that does not pass is never sent back: the return leg does not matter. */
  lemma ReturnOnlyAfterPass(r: EchoRound, b: Leg, sz: nat, backWatched: bool)
    requires WriteFailure(r.forward.write, sz).Some?
          || Verdict(Receive(r.forward.line, true, sz), FramePattern(sz, false)) != FtPass
    ensures RoundOutcomes(r.(back := b), sz, backWatched) == RoundOutcomes(r, sz, backWatched)
    ensures !RoundOutcomes(r, sz, backWatched).1 ==> RoundOutcomes(r, sz, backWatched).0 != [FtPass]
  {
  }

  /** A failed or short write ends the loop: nothing after it is reported. */
  lemma WriteFailureStops(rounds: seq<EchoRound>, i: nat, iter: nat, sz: nat, backWatched: bool)
    requires i < iter && WriteFailure(RoundAt(rounds, i, sz).forward.write, sz).Some?
    ensures EchoOutcomes(rounds, i, iter, sz, backWatched) == [WriteFailure(RoundAt(rounds, i, sz).forward.write, sz).value]
  {
  }

  /** An iteration whose frame arrives whole both ways, and whose writes are whole, reports two passes. */
  function CleanRound(sz: nat): EchoRound
  {
    var l := Line([SelReady], [ReadBytes(FramePattern(sz, false))]);
    EchoRound(Leg(Wrote(sz), l), Leg(Wrote(sz), l))
  }

  /**
   * The return leg's select as written: with the receive port opened as
   * descriptor 3 and the transmit port as descriptor 4, the select never
   * watches descriptor 4, so an echo that arrives intact times out.
   */
  lemma ReturnLegBlindAsWritten()
    ensures !SelectWatchesAsWritten(4, 3)
    ensures RoundOutcomes(CleanRound(32), 32, SelectWatchesAsWritten(4, 3)) == ([FtPass, FtRxTimeout], false)
  {
    assert Take(FramePattern(32, false), 32) == FramePattern(32, false);
  }

  /**
   * The defect of the return leg's select is latent: `open` returns the
   * lowest free descriptor and the transmitter is opened before the
   * receiver, so when both are opened afresh the transmit descriptor is
   * below the receive one, the select watches it, and the iterations report
   * what they would with the select naming the port it reads.
   */
  lemma ReturnLegWatchedWhenOpenedInOrder(devR: string, devW: string, openW: int, openR: int,
                                          rounds: seq<EchoRound>, i: nat, iter: nat, sz: nat)
    requires openW >= -1 && openR >= -1 && (devR == devW || openW < openR)
    requires OpenPorts(devR, devW, openW, openR).Ports?
    ensures var o := OpenPorts(devR, devW, openW, openR);
      && SelectWatchesAsWritten(o.fdW, o.fdR)
      && EchoOutcomes(rounds, i, iter, sz, SelectWatchesAsWritten(o.fdW, o.fdR)) == EchoOutcomes(rounds, i, iter, sz, true)
  {
  }

  /** With the select watching the port it reads, a clean iteration passes both ways. */
  lemma CleanRoundPasses(sz: nat)
    ensures RoundOutcomes(CleanRound(sz), sz, true) == ([FtPass, FtPass], false)
  {
    assert Take(FramePattern(sz, false), sz) == FramePattern(sz, false);
  }

  /**
   * The iterations of `serialEchoFit`, over the static buffers `bufR` and
   * `bufW`: each iteration zeroes the receive buffer and fills the transmit
   * buffer with the frame size, writes, receives and, after a pass, swaps
   * the roles and sends the frame back. The receivers watch the port they
   * read.
   */
  method EchoLoop(rounds: seq<EchoRound>, iter: nat, sz: nat) returns (outcomes: seq<FtRet>)
    requires sz <= MAX_COMM_SZ
    ensures outcomes == EchoOutcomes(rounds, 0, iter, sz, true)
  {
    var bufR, bufW := Filled(MAX_COMM_SZ, 0), Filled(MAX_COMM_SZ, 0);
    outcomes := [];
    var i := 0;
    while i < iter
      invariant |bufR| == MAX_COMM_SZ && |bufW| == MAX_COMM_SZ
      invariant outcomes + EchoOutcomes(rounds, i, iter, sz, true) == EchoOutcomes(rounds, 0, iter, sz, true)
    {
      var o, stop;
      o, stop, bufR, bufW := EchoIteration(RoundAt(rounds, i, sz), sz, bufR, bufW);
      if stop {
        assert EchoOutcomes(rounds, i, iter, sz, true) == o + [];
        return outcomes + o;
      }
      Regroup(outcomes, o, EchoOutcomes(rounds, i + 1, iter, sz, true));
      outcomes := outcomes + o;
      i := i + 1;
    }
    assert outcomes + [] == outcomes;
  }

  /** One iteration of the echo loop over the buffers `bufR` and `bufW`: its outcomes and whether it ends the loop. */
  method EchoIteration(r: EchoRound, sz: nat, bufR: seq<byte>, bufW: seq<byte>)
    returns (o: seq<FtRet>, stop: bool, bufR': seq<byte>, bufW': seq<byte>)
    requires sz <= |bufR| && sz <= |bufW|
    ensures (o, stop) == RoundOutcomes(r, sz, true)
    ensures |bufR'| == |bufR| && |bufW'| == |bufW|
  {
    var frame := FramePattern(sz, false);
    bufR', bufW' := Filled(sz, 0) + bufR[sz..], frame + bufW[sz..];
    var fail := WriteFailure(r.forward.write, sz);
    if fail.Some? {
      return [fail.value], true, bufR', bufW';
    }
    var v;
    v, bufR' := RxTypeTwo(r.forward.line, true, bufR', bufW'[..sz]);
    assert bufW'[..sz] == frame;
    if v != FtPass {
      return [v], false, bufR', bufW';
    }
    bufW', bufR' := Filled(sz, 0) + bufW'[sz..], frame + bufR'[sz..];
    fail := WriteFailure(r.back.write, sz);
    if fail.Some? {
      return [v, fail.value], true, bufR', bufW';
    }
    var w;
    w, bufW' := RxTypeTwo(r.back.line, true, bufW', bufR'[..sz]);
    assert bufR'[..sz] == frame;
    o, stop := [v, w], false;
  }

  // ---------------------------------------------------------------------
  // The whole test
  // ---------------------------------------------------------------------

  /**
   * The outcomes `serialEchoFit` reports, in order: nothing when it exits
   * with the usage text; an error when the configuration file cannot be
   * opened; the open failure, or the iterations' outcomes; then the
   * completion.
   */
  function EchoReport(opts: seq<SerialOption>, nonOptions: nat, openW: int, openR: int, rounds: seq<EchoRound>): seq<FtRet>
    requires openW >= -1 && openR >= -1
  {
    match EchoParse(opts, nonOptions)
    case Exited => []
    case ConfigMissing => [FtError, FtComplete]
    case Run(s) =>
      match OpenPorts(s.devR, s.devW, openW, openR)
      case OpenFailed(t) => [t, FtComplete]
      case Ports(_, _) => EchoOutcomes(rounds, 0, s.iter, s.comSz, true) + [FtComplete]
  }

  /** `serialEchoFit`, given what each `open` returns and what each iteration meets on the line. */
  method SerialEchoFit(opts: seq<SerialOption>, nonOptions: nat, openW: int, openR: int, rounds: seq<EchoRound>)
    returns (outcomes: seq<FtRet>)
    requires openW >= -1 && openR >= -1
    ensures outcomes == EchoReport(opts, nonOptions, openW, openR, rounds)
  {
    var p := ParseEchoOptions(opts, nonOptions);
    if p.Exited? {
      return [];
    } else if p.ConfigMissing? {
      return [FtError, FtComplete];
    }
    var s := p.settings;
    EchoSizeBounded(ECHO_DEFAULTS, opts, 0);
    var ports := OpenPorts(s.devR, s.devW, openW, openR);
    if ports.OpenFailed? {
      return [ports.ret, FtComplete];
    }
    outcomes := EchoLoop(rounds, s.iter, s.comSz);
    outcomes := outcomes + [FtComplete];
  }

  /** Unless the test exits with its usage text, its last report is the completion, which comes nowhere else. */
  lemma {:induction false} CompletesOnce(opts: seq<SerialOption>, nonOptions: nat, openW: int, openR: int, rounds: seq<EchoRound>)
    requires openW >= -1 && openR >= -1 && !EchoParse(opts, nonOptions).Exited?
    ensures var out := EchoReport(opts, nonOptions, openW, openR, rounds);
      |out| > 0 && out[|out| - 1] == FtComplete && FtComplete !in out[..|out| - 1]
  {
    var p := EchoParse(opts, nonOptions);
    if p.Run? {
      var s := p.settings;
      if OpenPorts(s.devR, s.devW, openW, openR).Ports? {
        var body := EchoOutcomes(rounds, 0, s.iter, s.comSz, true);
        NoCompletionInLoop(rounds, 0, s.iter, s.comSz, true);
        assert (body + [FtComplete])[..|body|] == body;
      }
    }
  }

  /** The iterations report attempts only, never the completion. */
  lemma {:induction false} NoCompletionInLoop(rounds: seq<EchoRound>, i: nat, iter: nat, sz: nat, backWatched: bool)
    ensures FtComplete !in EchoOutcomes(rounds, i, iter, sz, backWatched)
    decreases iter - i
  {
    if i < iter {
      var r := RoundAt(rounds, i, sz);
      var o := RoundOutcomes(r, sz, backWatched);
      NoCompletionInLoop(rounds, i + 1, iter, sz, backWatched);
      assert FtComplete !in o.0;
    }
  }
}
