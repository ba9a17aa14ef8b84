/**
 * `serialPortFit`: a single-process serial test that writes a frame on the
 * transmit port and receives it on the receive port, iteration after
 * iteration. Only `-c`, `-i` and `-h` are options here; the configuration
 * file always sets the protocol's rate.
 */
module SerialPort {
  import opened FitTypes
  import opened SerialDefs
  import opened SerialRx
  import opened SerialLoop
  import opened SerialSingle

  // ---------------------------------------------------------------------
  // Options
  // ---------------------------------------------------------------------

  /** The settings the options build: protocol, rate, device paths, frame size and iterations. */
  datatype PortSettings = PortSettings(protocol: Protocol, baud: u32, devR: string, devW: string, comSz: nat, iter: nat)

  /** The settings before any option: /dev/sp8 both ways, 32-byte frames, two iterations. */
  const PORT_DEFAULTS := PortSettings(ProtNone, 0, "/dev/sp8", "/dev/sp8", 32, 2)

  /**
   * One option applied to the settings. `-f` and `-b` are not options of
   * this test, so they end it with the usage text like `-h`; a
   * configuration file sets the protocol and its rate outright.
   */
  function PortStep(s: PortSettings, opt: SerialOption): Parsed<PortSettings>
  {
    match opt
    case ConfigFile(None) => ConfigMissing
    case ConfigFile(Some(rec)) =>
      var sync := IsSyncName(rec.devR);
      Run(s.(protocol := if sync then ProtSync else ProtAsync,
             baud := if sync then SHARED_SYNC_RATE else B115200,
             devR := DevPath(rec.devR), devW := DevPath(rec.devW),
             comSz := ClampSize(rec.comSz), iter := rec.iter))
    case Iterations(n) => Run(s.(iter := n as nat))
    case _ => Exited
  }

  /** The options from `i` on applied to `s`; parsing stops at the first option that exits or fails. */
  function PortFrom(s: PortSettings, opts: seq<SerialOption>, i: nat): Parsed<PortSettings>
    decreases |opts| - i
  {
    if i >= |opts| then Run(s)
    else match PortStep(s, opts[i])
      case Run(s') => PortFrom(s', opts, i + 1)
      case Exited => Exited
      case ConfigMissing => ConfigMissing
  }

  /** The `getopt` loop of `serialPortFit`; arguments that are not options are only reported, never acted on. */
  method ParsePortOptions(opts: seq<SerialOption>) returns (p: Parsed<PortSettings>)
    ensures p == PortFrom(PORT_DEFAULTS, opts, 0)
  {
    var s := PORT_DEFAULTS;
    var i := 0;
    while i < |opts|
      invariant i <= |opts|
      invariant PortFrom(s, opts, i) == PortFrom(PORT_DEFAULTS, opts, 0)
    {
      var step := PortStep(s, opts[i]);
      if !step.Run? {
        return step;
      }
      s := step.settings;
      i := i + 1;
    }
    p := Run(s);
  }

  /** Every option keeps the frame size within `MAX_COMM_SZ`. */
  lemma {:induction false} PortSizeBounded(s: PortSettings, opts: seq<SerialOption>, i: nat)
    requires s.comSz <= MAX_COMM_SZ
    ensures PortFrom(s, opts, i).Run? ==> PortFrom(s, opts, i).settings.comSz <= MAX_COMM_SZ
    decreases |opts| - i
  {
    if i < |opts| {
      var step := PortStep(s, opts[i]);
      if step.Run? {
        PortSizeBounded(step.settings, opts, i + 1);
      }
    }
  }

  /**
   * Whatever came before it, a configuration file sets the rate of its
   * protocol (153600 for a four-character receive port, 115200 otherwise)
   * and the iteration count; an `-i` after it overrides the count.
   */
  lemma ConfigSetsRateAndCount(s: PortSettings, rec: ConfigRecord, n: u32)
    ensures var r := PortFrom(s, [ConfigFile(Some(rec))], 0);
      r.Run? && r.settings.baud == (if IsSyncName(rec.devR) then SHARED_SYNC_RATE else B115200)
      && r.settings.iter == rec.iter && r.settings.comSz <= MAX_COMM_SZ
    ensures PortFrom(PORT_DEFAULTS, [Iterations(n), ConfigFile(Some(rec))], 0)
         == PortFrom(PORT_DEFAULTS, [ConfigFile(Some(rec))], 0)
    ensures var r := PortFrom(PORT_DEFAULTS, [ConfigFile(Some(rec)), Iterations(n)], 0);
      r.Run? && r.settings.iter == n as nat
  {
    var c := [ConfigFile(Some(rec))];
    assert PortFrom(s, c, 0) == PortFrom(PortStep(s, c[0]).settings, c, 1);
    var s0 := PortStep(PORT_DEFAULTS, c[0]).settings;
    assert PortFrom(PORT_DEFAULTS, c, 0) == Run(s0);
    var ic := [Iterations(n), ConfigFile(Some(rec))];
    var s1 := PORT_DEFAULTS.(iter := n as nat);
    assert PortFrom(PORT_DEFAULTS, ic, 0) == PortFrom(s1, ic, 1);
    assert PortFrom(s1, ic, 1) == PortFrom(PortStep(s1, ic[1]).settings, ic, 2);
    assert PortStep(s1, ic[1]).settings == s0;
    var ci := [ConfigFile(Some(rec)), Iterations(n)];
    assert PortFrom(PORT_DEFAULTS, ci, 0) == PortFrom(s0, ci, 1);
    assert PortFrom(s0, ci, 1) == PortFrom(s0.(iter := n as nat), ci, 2);
  }

  /** The options of the echo test are not options here: `-f` and `-b` end the test with the usage text. */
  lemma EchoOptionsRejected(s: PortSettings, n: u32)
    ensures PortFrom(s, [FlowControl], 0) == Exited
    ensures PortFrom(s, [Baud(n)], 0) == Exited
  {
  }

  // ---------------------------------------------------------------------
  // The transmit and receive loop
  // ---------------------------------------------------------------------

  /** The iteration `i`; past the given ones every write is whole and the line stays silent. */
  function LegAt(legs: seq<Leg>, i: nat, sz: nat): Leg
  {
    if i < |legs| then legs[i] else Leg(Wrote(sz), Line([], []))
  }

  /** The outcome one iteration reports, and whether it ends the loop: only a failed or short write does. */
  function PortOutcome(leg: Leg, sz: nat): (o: (FtRet, bool))
    ensures o.1 <==> WriteFailure(leg.write, sz).Some?
    ensures o.1 ==> o.0 == FtTxError || o.0 == FtTxFail
  {
    match WriteFailure(leg.write, sz)
    case Some(t) => (t, true)
    case None => (Verdict(Receive(leg.line, true, sz), FramePattern(sz, false)), false)
  }

  /** The outcomes the iterations `i` onwards report. */
  function PortOutcomes(legs: seq<Leg>, i: nat, iter: nat, sz: nat): seq<FtRet>
    decreases iter - i
  {
    if i >= iter then []
    else
      var o := PortOutcome(LegAt(legs, i, sz), sz);
      [o.0] + (if o.1 then [] else PortOutcomes(legs, i + 1, iter, sz))
  }

  /**
   * A receive failure does not end the loop: while every write is whole,
   * each iteration reports exactly one receive outcome.
   */
  lemma {:induction false} ReceiveFailuresDoNotStop(legs: seq<Leg>, i: nat, iter: nat, sz: nat)
    requires forall j :: i <= j < iter ==> WriteFailure(LegAt(legs, j, sz).write, sz).None?
    ensures var out := PortOutcomes(legs, i, iter, sz);
      |out| == (if i <= iter then iter - i else 0)
      && forall j :: 0 <= j < |out| ==> out[j] == Verdict(Receive(LegAt(legs, i + j, sz).line, true, sz), FramePattern(sz, false))
    decreases iter - i
  {
    if i < iter {
      ReceiveFailuresDoNotStop(legs, i + 1, iter, sz);
      var rest := PortOutcomes(legs, i + 1, iter, sz);
      var out := PortOutcomes(legs, i, iter, sz);
      assert out == [PortOutcome(LegAt(legs, i, sz), sz).0] + rest;
      forall j | 0 < j < |out|
        ensures out[j] == Verdict(Receive(LegAt(legs, i + j, sz).line, true, sz), FramePattern(sz, false))
      {
        assert out[j] == rest[j - 1];
        assert i + 1 + (j - 1) == i + j;
      }
    }
  }

  /** A failed or short write is the last outcome of the loop. */
  lemma WriteFailureEndsLoop(legs: seq<Leg>, i: nat, iter: nat, sz: nat)
    requires i < iter && WriteFailure(LegAt(legs, i, sz).write, sz).Some?
    ensures PortOutcomes(legs, i, iter, sz) == [WriteFailure(LegAt(legs, i, sz).write, sz).value]
  {
  }

  /**
   * One iteration of `serialPortFit` over the buffers `bufR` and `bufW`:
   * the receive buffer is filled with 0xff and the transmit buffer with
   * the frame size's low byte, the frame is written and, when the write is
   * whole, received into the receive buffer.
   */
  method PortIteration(leg: Leg, sz: nat, bufR: seq<byte>, bufW: seq<byte>)
    returns (v: FtRet, stop: bool, bufR': seq<byte>, bufW': seq<byte>)
    requires sz <= |bufR| && sz <= |bufW|
    ensures (v, stop) == PortOutcome(leg, sz)
    ensures bufW' == FramePattern(sz, false) + bufW[sz..]
    ensures var cleared := Filled(sz, 0xff) + bufR[sz..];
      bufR' == if stop then cleared else Overwritten(cleared, Stored(Receive(leg.line, true, sz)))
  {
    bufR', bufW' := Filled(sz, 0xff) + bufR[sz..], FramePattern(sz, false) + bufW[sz..];
    var fail := WriteFailure(leg.write, sz);
    if fail.Some? {
      return fail.value, true, bufR', bufW';
    }
    v, bufR' := RxTypeTwo(leg.line, true, bufR', bufW'[..sz]);
    assert bufW'[..sz] == FramePattern(sz, false);
    stop := false;
  }

  /** The iterations of `serialPortFit`, over its static buffers. */
  method PortLoop(legs: seq<Leg>, iter: nat, sz: nat) returns (outcomes: seq<FtRet>)
    requires sz <= MAX_COMM_SZ
    ensures outcomes == PortOutcomes(legs, 0, iter, sz)
  {
    var bufR, bufW := Filled(MAX_COMM_SZ, 0), Filled(MAX_COMM_SZ, 0);
    outcomes := [];
    var i := 0;
    while i < iter
      invariant |bufR| == MAX_COMM_SZ && |bufW| == MAX_COMM_SZ
      invariant outcomes + PortOutcomes(legs, i, iter, sz) == PortOutcomes(legs, 0, iter, sz)
    {
      var v, stop;
      v, stop, bufR, bufW := PortIteration(LegAt(legs, i, sz), sz, bufR, bufW);
      if stop {
        assert PortOutcomes(legs, i, iter, sz) == [v] + [];
        return outcomes + [v];
      }
      Regroup(outcomes, [v], PortOutcomes(legs, i + 1, iter, sz));
      outcomes := outcomes + [v];
      i := i + 1;
    }
    assert outcomes + [] == outcomes;
  }

  // ---------------------------------------------------------------------
  // The whole test
  // ---------------------------------------------------------------------

  /**
   * The outcomes `serialPortFit` reports, in order: nothing when it exits
   * with the usage text; an error when the configuration file cannot be
   * opened; the open failure, or the iterations' outcomes; then the
   * completion.
   */
  function PortReport(opts: seq<SerialOption>, openW: int, openR: int, legs: seq<Leg>): seq<FtRet>
    requires openW >= -1 && openR >= -1
  {
    match PortFrom(PORT_DEFAULTS, opts, 0)
    case Exited => []
    case ConfigMissing => [FtError, FtComplete]
    case Run(s) =>
      match OpenPorts(s.devR, s.devW, openW, openR)
      case OpenFailed(t) => [t, FtComplete]
      case Ports(_, _) => PortOutcomes(legs, 0, s.iter, s.comSz) + [FtComplete]
  }

  /** `serialPortFit`, given what each `open` returns and what each iteration meets on the line. */
  method SerialPortFit(opts: seq<SerialOption>, openW: int, openR: int, legs: seq<Leg>) returns (outcomes: seq<FtRet>)
    requires openW >= -1 && openR >= -1
    ensures outcomes == PortReport(opts, openW, openR, legs)
  {
    var p := ParsePortOptions(opts);
    if p.Exited? {
      return [];
    } else if p.ConfigMissing? {
      return [FtError, FtComplete];
    }
    var s := p.settings;
    PortSizeBounded(PORT_DEFAULTS, opts, 0);
    var ports := OpenPorts(s.devR, s.devW, openW, openR);
    if ports.OpenFailed? {
      return [ports.ret, FtComplete];
    }
    outcomes := PortLoop(legs, s.iter, s.comSz);
    outcomes := outcomes + [FtComplete];
  }

  /**
   * With the same name for both directions a single descriptor is opened
   * and shared; opening it is the only open, and its failure is an error
   * rather than a transmit or receive error.
   */
  lemma LoopbackSharesDescriptor(name: string, openW: int, openR: int)
    requires openW >= -1 && openR >= -1
    ensures OpenPorts(name, name, openW, openR) == OpenPorts(name, name, openW, -1)
    ensures openW >= 0 ==> OpenPorts(name, name, openW, openR) == Ports(openW, openW)
    ensures openW == -1 ==> OpenPorts(name, name, openW, openR) == OpenFailed(FtError)
  {
  }
}
