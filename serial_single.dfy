/**
 * What the two single-process serial tests (`serialEchoFit.c` and
 * `serialPortFit.c`) share: the configuration record they read, the
 * rules that pick the protocol and clamp the frame size, opening the two
 * ports, the transmit check, and their `rxTypeTwo` receiver, which
 * reassembles a frame from short reads like the threaded test's but waits
 * out ten EAGAIN failures, gives up on a select error at once and treats
 * a zero-byte read as a receive error.
 */
module SerialSingle {
  import opened FitTypes
  import opened SerialDefs
  import opened SerialRx
  import opened SerialLoop

  /** Largest frame of the single-process tests (`MAX_COMM_SZ`). */
  const MAX_COMM_SZ: nat := 1024

  /** EAGAIN failures in a row the receiver waits out (`RETRY_COUNT`). */
  const RETRY_COUNT: nat := 10

  /** `n` bytes of value `b`, as `memset` leaves them. */
  function Filled(n: nat, b: byte): (s: seq<byte>)
    ensures |s| == n && forall j :: 0 <= j < n ==> s[j] == b
  {
    seq(n, _ => b)
  }

  // ---------------------------------------------------------------------
  // Configuration
  // ---------------------------------------------------------------------

  /** The five fields read from the configuration file: rx and tx port, an unused minimum size, the frame size and the iterations. */
  datatype ConfigRecord = ConfigRecord(devR: string, devW: string, unusedMin: nat, comSz: nat, iter: nat)

  /** A four-character receive port name (sp1s, sp2s, ...) is a synchronous port. */
  predicate IsSyncName(devR: string)
  {
    |devR| == 4
  }

  /** The frame size a configuration file asks for, cut to `MAX_COMM_SZ`. */
  function ClampSize(n: nat): (r: nat)
    ensures r <= MAX_COMM_SZ
    ensures n <= MAX_COMM_SZ ==> r == n
    ensures n > MAX_COMM_SZ ==> r == MAX_COMM_SZ
  {
    if n > MAX_COMM_SZ then MAX_COMM_SZ else n
  }

  /** The device path of a configured port name. */
  function DevPath(name: string): string
  {
    "/dev/" + name
  }

  /**
   * One command-line option, already split by `getopt`: `-c` with the
   * record read from the file (none when it cannot be opened), `-i`, `-f`,
   * `-b`, `-h`, or an option the test does not know.
   */
  datatype SerialOption =
    | ConfigFile(file: Option<ConfigRecord>)
    | Iterations(n: u32)
    | FlowControl
    | Baud(n: u32)
    | Help
    | Unknown

  /** Where option parsing ended: settings to run with, the usage text and exit, or a configuration file that cannot be opened. */
  datatype Parsed<S> = Run(settings: S) | Exited | ConfigMissing

  // ---------------------------------------------------------------------
  // Opening the ports and transmitting
  // ---------------------------------------------------------------------

  /** How opening the ports ended: the read and write descriptors, or the outcome the test reports before it completes. */
  datatype Opened = Ports(fdR: int, fdW: int) | OpenFailed(ret: FtRet)

  /**
   * Opening the ports, given what each `open` returns (-1 on failure): one
   * descriptor serves both directions when the names are equal, otherwise
   * the transmitter is opened first and then the receiver.
   */
  function OpenPorts(devR: string, devW: string, openW: int, openR: int): (o: Opened)
    requires openW >= -1 && openR >= -1
    ensures o.Ports? ==> o.fdR >= 0 && o.fdW >= 0
    ensures o.Ports? && devR == devW ==> o.fdR == o.fdW == openW
    ensures o.OpenFailed? <==> openW == -1 || (devR != devW && openR == -1)
    ensures o.OpenFailed? ==> o.ret == (if devR == devW then FtError else if openW == -1 then FtTxError else FtRxError)
  {
    if devR == devW then
      if openW == -1 then OpenFailed(FtError) else Ports(openW, openW)
    else if openW == -1 then OpenFailed(FtTxError)
    else if openR == -1 then OpenFailed(FtRxError)
    else Ports(openR, openW)
  }

  /** What one `write` of a frame returns: an error, or the count of bytes written. */
  datatype WriteResult = WriteFailed | Wrote(count: nat)

  /** One direction of one iteration: what the `write` returns and what the receiving port sees. */
  datatype Leg = Leg(write: WriteResult, line: Line)

  /** The outcome a write of an `sz`-byte frame reports when it ends the test: an error, or a short write; none for a full write. */
  function WriteFailure(w: WriteResult, sz: nat): (r: Option<FtRet>)
    ensures r == None <==> w == Wrote(sz)
    ensures r.Some? ==> r.value == FtTxError || r.value == FtTxFail
  {
    match w
    case WriteFailed => Some(FtTxError)
    case Wrote(n) => if n != sz then Some(FtTxFail) else None
  }

  // ---------------------------------------------------------------------
  // rxTypeTwo
  // ---------------------------------------------------------------------

  /**
   * The receiver from round `k` on, with `rem` bytes still to come,
   * `retries` EAGAIN failures since the last progress and `got` stored so
   * far. A port the select does not watch (`watched` false) is never seen
   * ready, so the select times out.
   */
  function ReceiveFrom(line: Line, watched: bool, k: nat, rem: nat, retries: nat, got: seq<byte>): (a: Assembly)
    ensures got <= Stored(a) && |Stored(a)| <= |got| + rem
    ensures a.Assembled? ==> |a.frame| == |got| + rem
    decreases |line.selects| - k
  {
    if !watched || !Scripted(line, k) then Stopped(FtRxTimeout, got)
    else match line.selects[k]
      case SelTimeout => Stopped(FtRxTimeout, got)
      case SelError(_) => Stopped(FtRxError, got)
      case SelReady =>
        match line.results[k]
        case ReadFailed(eagain) =>
          if eagain && retries < RETRY_COUNT then ReceiveFrom(line, watched, k + 1, rem, retries + 1, got)
          else Stopped(FtRxError, got)
        case ReadBytes(ready) =>
          var chunk := Take(ready, rem);
          if |chunk| == rem then Assembled(got + chunk)
          else if |chunk| != 0 then ReceiveFrom(line, watched, k + 1, rem - |chunk|, 0, got + chunk)
          else Stopped(FtRxError, got)
  }

  /** The receiver for a frame of `sz` bytes. */
  function Receive(line: Line, watched: bool, sz: nat): Assembly
  {
    ReceiveFrom(line, watched, 0, sz, 0, [])
  }

  /**
   * `rxTypeTwo`: read the frame of `|expected|` bytes into the receive
   * buffer `buf`, each read storing its bytes after those already stored,
   * then compare it with the transmitted bytes. The result is the outcome
   * and the buffer after the reads.
   */
  method RxTypeTwo(line: Line, watched: bool, buf: seq<byte>, expected: seq<byte>) returns (ret: FtRet, buf': seq<byte>)
    requires |expected| <= |buf|
    ensures var a := Receive(line, watched, |expected|);
      ret == Verdict(a, expected) && buf' == Overwritten(buf, Stored(a))
  {
    ghost var a := Receive(line, watched, |expected|);
    var k: nat, rem: nat, retries: nat := 0, |expected|, 0;
    var got: seq<byte> := [];
    ret := FtRxTimeout;
    var done := false;
    while !done
      invariant |got| + rem == |expected|
      invariant !done ==> ReceiveFrom(line, watched, k, rem, retries, got) == a
      invariant done ==> Stored(a) == got && ret == Verdict(a, expected)
      decreases !done, |line.selects| - k
    {
      if !watched || !Scripted(line, k) || line.selects[k].SelTimeout? {
        ret, done := FtRxTimeout, true;
      } else if line.selects[k].SelError? {
        ret, done := FtRxError, true;
      } else if line.results[k].ReadFailed? {
        if line.results[k].eagain && retries < RETRY_COUNT {
          k, retries := k + 1, retries + 1;
        } else {
          ret, done := FtRxError, true;
        }
      } else {
        var chunk := Take(line.results[k].ready, rem);
        if |chunk| == rem {
          got, rem := got + chunk, 0;
          ret, done := if got == expected then FtPass else FtRxFail, true;
        } else if |chunk| == 0 {
          ret, done := FtRxError, true;
        } else {
          got, k, rem, retries := got + chunk, k + 1, rem - |chunk|, 0;
        }
      }
    }
    buf' := got + buf[|got|..];
  }

  /** A read that returns nothing while bytes are still expected is a receive error here (the threaded test calls it a failed frame). */
  lemma ZeroReadIsError(line: Line, k: nat, rem: nat, retries: nat, got: seq<byte>)
    requires Scripted(line, k) && line.selects[k] == SelReady && line.results[k] == ReadBytes([]) && rem > 0
    ensures ReceiveFrom(line, true, k, rem, retries, got) == Stopped(FtRxError, got)
    ensures AssembleFrom(line, k, rem, retries, got) == Stopped(FtRxFail, got)
  {
  }

  /** Round `k` is a read that fails with EAGAIN (a select error is never retried here). */
  predicate ReadEagain(line: Line, k: nat)
  {
    Scripted(line, k) && line.selects[k] == SelReady && line.results[k] == ReadFailed(true)
  }

  /** One EAGAIN read failure, while retries remain, only moves on to the next round. */
  lemma ReadEagainStep(line: Line, k: nat, rem: nat, retries: nat, got: seq<byte>)
    requires retries < RETRY_COUNT && ReadEagain(line, k)
    ensures ReceiveFrom(line, true, k, rem, retries, got) == ReceiveFrom(line, true, k + 1, rem, retries + 1, got)
  {
  }

  /** Up to `RETRY_COUNT` EAGAIN read failures in a row are waited out; the count carries over. */
  lemma {:induction false} EagainWaitedOut(line: Line, k: nat, m: nat, rem: nat, retries: nat, got: seq<byte>)
    requires retries + m <= RETRY_COUNT
    requires forall j :: k <= j < k + m ==> ReadEagain(line, j)
    ensures ReceiveFrom(line, true, k, rem, retries, got) == ReceiveFrom(line, true, k + m, rem, retries + m, got)
    decreases m
  {
    if m > 0 {
      assert ReadEagain(line, k);
      ReadEagainStep(line, k, rem, retries, got);
      EagainWaitedOut(line, k + 1, m - 1, rem, retries + 1, got);
    }
  }

  /** The eleventh EAGAIN read failure in a row is a receive error. */
  lemma EagainExhausted(line: Line, k: nat, rem: nat, got: seq<byte>)
    requires forall j :: k <= j <= k + RETRY_COUNT ==> ReadEagain(line, j)
    ensures ReceiveFrom(line, true, k, rem, 0, got) == Stopped(FtRxError, got)
  {
    EagainWaitedOut(line, k, RETRY_COUNT, rem, 0, got);
    assert ReadEagain(line, k + RETRY_COUNT);
  }

  /** A select that fails, even with EAGAIN, is a receive error at once (the threaded test retries it). */
  lemma SelectErrorNotRetried(line: Line, k: nat, rem: nat, got: seq<byte>)
    requires Scripted(line, k) && line.selects[k] == SelError(true)
    ensures ReceiveFrom(line, true, k, rem, 0, got) == Stopped(FtRxError, got)
    ensures AssembleFrom(line, k, rem, 0, got) == AssembleFrom(line, k + 1, rem, 1, got)
  {
    EagainStep(line, k, rem, 0, got);
  }

  /**
   * However a frame is fragmented, it is reassembled: non-empty fragments
   * that add up to the rest of the frame complete it.
   */
  lemma {:induction false} SingleFragmentsReassemble(line: Line, k: nat, chunks: seq<seq<byte>>, retries: nat, got: seq<byte>)
    requires Delivers(line, k, chunks) && |chunks| > 0
    requires forall j :: 0 <= j < |chunks| ==> |chunks[j]| > 0
    ensures ReceiveFrom(line, true, k, |Concat(chunks)|, retries, got) == Assembled(got + Concat(chunks))
    decreases |chunks|
  {
    var rest := chunks[1..];
    assert line.selects[k] == SelReady && line.results[k] == ReadBytes(chunks[0]);
    if rest == [] {
      assert Concat(chunks) == chunks[0];
    } else {
      assert Delivers(line, k + 1, rest) by {
        forall j | k + 1 <= j < k + 1 + |rest|
          ensures line.selects[j] == SelReady && line.results[j] == ReadBytes(rest[j - (k + 1)])
        {
          assert line.results[j] == ReadBytes(chunks[j - k]);
        }
      }
      assert |Concat(rest)| > 0 by { assert |rest[0]| > 0; }
      SingleFragmentsReassemble(line, k + 1, rest, 0, got + chunks[0]);
      assert got + chunks[0] + Concat(rest) == got + Concat(chunks);
    }
  }

  /** A port the select does not watch times out, whatever arrives on the line. */
  lemma UnwatchedTimesOut(line: Line, sz: nat)
    ensures Receive(line, false, sz) == Stopped(FtRxTimeout, [])
  {
  }
}
