/**
 * One serial test descriptor (`spDatDat_t`) and what its receiver and
 * transmitter threads do to it: receive a frame by one of the receiver
 * designs, transmit a frame, fill the buffers for the next frame size and
 * sweep the frame sizes at one baud rate.
 */
module SerialLoop {
  import opened FitTypes
  import opened SerialDefs
  import opened SerialRx

  /** `n` zero bytes. */
  function Zeros(n: nat): (z: seq<byte>)
    ensures |z| == n && forall j :: 0 <= j < n ==> z[j] == 0
  {
    seq(n, _ => 0)
  }

  /** `n` bytes of the transmit-only pattern 0x55. */
  function Fives(n: nat): (z: seq<byte>)
    ensures |z| == n && forall j :: 0 <= j < n ==> z[j] == 0x55
  {
    seq(n, _ => 0x55)
  }

  /** The transmit outcome for a `write` of a `sz`-byte frame that returned `written` (-1 on error). */
  function TxOutcome(written: int, sz: nat, rxType: nat): (ret: FtRet)
    ensures ret == FtPass <==> written == sz || (0 <= written && rxType == 2)
    ensures ret != FtPass ==> (ret == FtTxError <==> written < 0) && (ret == FtTxFail <==> written >= 0)
  {
    if written < 0 then FtTxError
    else if written != sz && rxType != 2 then FtTxFail
    else FtPass
  }

  /** What the receiver design `rxType` (0, 1 or 2) makes of a `sz`-byte frame arriving on `line`. */
  function FrameAssembly(rxType: nat, line: Line, sz: nat): (a: Assembly)
    requires rxType <= 2
  {
    if rxType == 0 then ReadWholeFrom(line, 0, sz, 0)
    else if rxType == 1 then ReadBytewise(line, sz)
    else Assemble(line, sz)
  }

  /** The environment of one frame: whether the transmitter got ready in time, and the receive line. */
  datatype FrameScript = FrameScript(txReady: bool, line: Line)

  /** The script of frame `j`; past the given scripts the transmitter is ready and the line silent. */
  function ScriptAt(scripts: seq<FrameScript>, j: nat): FrameScript
  {
    if j < |scripts| then scripts[j] else FrameScript(true, Line([], []))
  }

  /**
   * The outcome of the frame of `sz` bytes: a transmitter that never gets
   * ready times the receiver out; receiver designs 0 to 2 judge the frame
   * against the transmitted pattern; the transmit-only design 3 keeps the
   * previous outcome, and any other design is an error.
   */
  function FrameOutcome(rxType: nat, sz: nat, useAtc: bool, sc: FrameScript, prev: FtRet): FtRet
  {
    if !sc.txReady then FtTxTimeout
    else if rxType <= 2 then Verdict(FrameAssembly(rxType, sc.line, sz), FramePattern(sz, useAtc))
    else if rxType == 3 then prev
    else FtError
  }

  /** Whether the sweep stops after a frame with outcome `v`. */
  predicate StopsSweep(v: FtRet, quickFail: bool)
  {
    v == FtTxTimeout || (quickFail && v != FtPass)
  }

  /**
   * The outcomes of the frames of sizes `sz` to `maxFrame`, frame `j` on: a
   * transmitter timeout stops the sweep, and so does any failure under
   * quick-fail.
   */
  function SweepFrom(rxType: nat, sz: nat, maxFrame: nat, useAtc: bool, quickFail: bool,
                     scripts: seq<FrameScript>, j: nat, prev: FtRet): (vs: seq<FtRet>)
    ensures sz <= maxFrame + 1 ==> |vs| <= maxFrame + 1 - sz
    decreases maxFrame + 1 - sz
  {
    if sz > maxFrame then []
    else
      var v := FrameOutcome(rxType, sz, useAtc, ScriptAt(scripts, j), prev);
      if StopsSweep(v, quickFail) then [v]
      else [v] + SweepFrom(rxType, sz + 1, maxFrame, useAtc, quickFail, scripts, j + 1, v)
  }

  /** The last outcome, or `prev` if there is none. */
  function LastOr(vs: seq<FtRet>, prev: FtRet): FtRet
  {
    if vs == [] then prev else vs[|vs| - 1]
  }

  /** Whether a frame got as far as the receiver (the first frame did not time out waiting for the transmitter). */
  predicate Started(vs: seq<FtRet>)
  {
    vs != [] && vs[0] != FtTxTimeout
  }

  /** The receive counters after frames with outcomes `vs` under receiver design `rxType`. */
  function CountFrames(rxType: nat, t: Tally, vs: seq<FtRet>): Tally
  {
    if vs == [] then t else CountFrame(rxType, CountFrames(rxType, t, vs[..|vs| - 1]), vs[|vs| - 1])
  }

  /** The sweep from size `sz` is this frame's outcome followed, unless the sweep stops there, by the sweep from `sz + 1`. */
  lemma SweepStep(rxType: nat, sz: nat, maxFrame: nat, useAtc: bool, quickFail: bool,
                  scripts: seq<FrameScript>, j: nat, prev: FtRet)
    requires sz <= maxFrame
    ensures var v := FrameOutcome(rxType, sz, useAtc, ScriptAt(scripts, j), prev);
      SweepFrom(rxType, sz, maxFrame, useAtc, quickFail, scripts, j, prev)
      == [v] + (if StopsSweep(v, quickFail) then [] else SweepFrom(rxType, sz + 1, maxFrame, useAtc, quickFail, scripts, j + 1, v))
  {
  }

  lemma {:induction false} CountFramesPrepend(rxType: nat, t: Tally, v: FtRet, vs: seq<FtRet>)
    ensures CountFrames(rxType, t, [v] + vs) == CountFrames(rxType, CountFrame(rxType, t, v), vs)
    decreases |vs|
  {
    if vs == [] {
      assert ([v] + vs)[..0] == [];
    } else {
      var init := vs[..|vs| - 1];
      assert ([v] + vs)[..|vs|] == [v] + init;
      CountFramesPrepend(rxType, t, v, init);
    }
  }

  /** What a sweep that stops after its first frame `v` leaves behind. */
  lemma FirstFrame(rxType: nat, v: FtRet, prev: FtRet, t: Tally, comSz0: nat, sz: nat, maxFrame: nat)
    ensures LastOr([v], prev) == v
    ensures Started([v]) == (v != FtTxTimeout)
    ensures CountFrames(rxType, t, [v]) == CountFrame(rxType, t, v)
    ensures SweptSize(rxType, [v], comSz0, sz, maxFrame) == if rxType == 3 && v != FtTxTimeout then maxFrame else sz
  {
    assert [v][..0] == [];
  }

  /** What a sweep that goes on past its first frame `v` leaves behind, in terms of the rest of the sweep. */
  lemma MoreFrames(rxType: nat, v: FtRet, rest: seq<FtRet>, prev: FtRet, t: Tally, comSz0: nat, sz: nat, maxFrame: nat)
    requires v != FtTxTimeout
    ensures LastOr([v] + rest, prev) == LastOr(rest, v)
    ensures Started([v] + rest)
    ensures CountFrames(rxType, t, [v] + rest) == CountFrames(rxType, CountFrame(rxType, t, v), rest)
    ensures SweptSize(rxType, [v] + rest, comSz0, sz, maxFrame)
         == SweptSize(rxType, rest, if rxType == 3 then maxFrame else sz, sz + 1, maxFrame)
  {
    CountFramesPrepend(rxType, t, v, rest);
  }

  /** The frame size after a sweep with outcomes `vs` over `minFrame..maxFrame` that started from size `comSz0`. */
  function SweptSize(rxType: nat, vs: seq<FtRet>, comSz0: nat, minFrame: nat, maxFrame: nat): nat
  {
    if vs == [] then comSz0
    else if rxType == 3 && vs[|vs| - 1] != FtTxTimeout then maxFrame
    else minFrame + |vs| - 1
  }

  /** Timing records a sweep with outcomes `vs` writes: one per frame the receiver started. */
  function TimingRecords(vs: seq<FtRet>): nat
  {
    if vs != [] && vs[|vs| - 1] == FtTxTimeout then |vs| - 1 else |vs|
  }

  /** The timing records the receiver allocates per rate: one per byte of the largest frame. */
  function TimingCapacityAsWritten(minFrame: nat, maxFrame: nat): nat
  {
    maxFrame
  }

  /** One timing record per frame size of the sweep `minFrame..maxFrame`. */
  function TimingCapacity(minFrame: nat, maxFrame: nat): nat
  {
    if minFrame <= maxFrame then maxFrame + 1 - minFrame else 0
  }

  /** Whether every frame from `j` on has a transmitter that gets ready. */
  predicate AllReady(scripts: seq<FrameScript>, j: nat)
  {
    forall k :: j <= k < |scripts| ==> scripts[k].txReady
  }

  /**
   * Without quick-fail and with a transmitter that is always ready, the
   * sweep runs every size from `sz` to `maxFrame` and no frame times out.
   */
  lemma {:induction false} FullSweep(rxType: nat, sz: nat, maxFrame: nat, useAtc: bool,
                                     scripts: seq<FrameScript>, j: nat, prev: FtRet)
    requires AllReady(scripts, j) && prev != FtTxTimeout && sz <= maxFrame + 1
    ensures var vs := SweepFrom(rxType, sz, maxFrame, useAtc, false, scripts, j, prev);
      |vs| == maxFrame + 1 - sz && FtTxTimeout !in vs
    decreases maxFrame + 1 - sz
  {
    if sz <= maxFrame {
      var v := FrameOutcome(rxType, sz, useAtc, ScriptAt(scripts, j), prev);
      assert v != FtTxTimeout;
      FullSweep(rxType, sz + 1, maxFrame, useAtc, scripts, j + 1, v);
    }
  }

  /**
   * A sweep from frame size 0 writes one timing record more than the
   * receiver allocates: the sp2s/sp3s cross-connect tests are configured
   * with frame sizes 0 to 32.
   */
  lemma ZeroMinOverrunsTiming(rxType: nat, maxFrame: nat, useAtc: bool, scripts: seq<FrameScript>, prev: FtRet)
    requires AllReady(scripts, 0) && prev != FtTxTimeout
    ensures TimingRecords(SweepFrom(rxType, 0, maxFrame, useAtc, false, scripts, 0, prev))
          == TimingCapacityAsWritten(0, maxFrame) + 1
  {
    FullSweep(rxType, 0, maxFrame, useAtc, scripts, 0, prev);
  }

  /** Every sweep writes at most one record per frame size, so a per-size allocation never overruns, and a full sweep fills it. */
  lemma SweepFitsTiming(rxType: nat, minFrame: nat, maxFrame: nat, useAtc: bool, quickFail: bool,
                        scripts: seq<FrameScript>, prev: FtRet)
    ensures TimingRecords(SweepFrom(rxType, minFrame, maxFrame, useAtc, quickFail, scripts, 0, prev))
         <= TimingCapacity(minFrame, maxFrame)
    ensures !quickFail && AllReady(scripts, 0) && prev != FtTxTimeout ==>
      TimingRecords(SweepFrom(rxType, minFrame, maxFrame, useAtc, quickFail, scripts, 0, prev))
         == TimingCapacity(minFrame, maxFrame)
  {
    if !quickFail && AllReady(scripts, 0) && prev != FtTxTimeout && minFrame <= maxFrame + 1 {
      FullSweep(rxType, minFrame, maxFrame, useAtc, scripts, 0, prev);
    }
  }

  /** Bytes stored right after the `got` prefix of a buffer that otherwise still holds `orig`. */
  lemma Splice(got: seq<byte>, chunk: seq<byte>, orig: seq<byte>)
    requires |got| + |chunk| <= |orig|
    ensures (got + orig[|got|..])[..|got|] + chunk + (got + orig[|got|..])[|got| + |chunk|..]
         == (got + chunk) + orig[|got + chunk|..]
  {
    var b := got + orig[|got|..];
    assert b[..|got|] == got;
    assert b[|got| + |chunk|..] == orig[|got| + |chunk|..];
  }

  /** A buffer holding `orig` after `stored` was written over its start. */
  function Overwritten(orig: seq<byte>, stored: seq<byte>): (r: seq<byte>)
    requires |stored| <= |orig|
    ensures |r| == |orig| && r[..|stored|] == stored && r[|stored|..] == orig[|stored|..]
  {
    stored + orig[|stored|..]
  }

  /** The receive counters after one frame with outcome `v` under receiver design `rxType`. */
  function CountFrame(rxType: nat, t: Tally, v: FtRet): Tally
  {
    if rxType > 2 || v == FtTxTimeout then t else CountRx(t, v == FtPass)
  }

  /** Writing an element twice keeps the second value. */
  lemma Overwrite<T>(s: seq<T>, i: nat, a: T, b: T)
    requires i < |s|
    ensures s[i := a][i := b] == s[i := b]
  {
  }

  /** Concatenation regrouped. */
  lemma Regroup<T>(a: seq<T>, b: seq<T>, c: seq<T>)
    ensures (a + b) + c == a + (b + c)
  {
  }

  /** Where `rxTypeTwo`'s read loop stands: round `k`, `rem` bytes to come, `retries` EAGAINs since the last progress, `pos` bytes stored. */
  datatype Cursor = Cursor(k: nat, rem: nat, retries: nat, pos: nat)

  /**
   * A serial test: the receive and transmit ports, the frame-size range,
   * the iteration count, the expected protocol, the per-rate baud table and
   * counters, and the two transfer buffers.
   */
  class SerialTest {
    const testName: string
    const devR: string
    const devW: string
    const protocol: Protocol
    const baudRates: seq<u32>
    const bufR: array<byte>
    const bufW: array<byte>
    var comSz: nat
    var minFrame: nat
    var maxFrame: nat
    var iter: nat
    var fdR: int
    var fdW: int
    var stR: SpState
    var stW: SpState
    var rate: nat
    var tallies: seq<Tally>

    ghost predicate Valid()
      reads this
    {
      && bufR.Length == MAX_TRANSFER && bufW.Length == MAX_TRANSFER && bufR != bufW
      && comSz <= MAX_TRANSFER && minFrame <= MAX_TRANSFER && maxFrame <= MAX_TRANSFER
      && |tallies| == |baudRates|
    }

    /** A table entry: nothing opened, nothing scheduled, all counters zero. */
    constructor (testName: string, devR: string, devW: string, minFrame: nat, maxFrame: nat,
                 iter: nat, protocol: Protocol, baudRates: seq<u32>)
      requires minFrame <= MAX_TRANSFER && maxFrame <= MAX_TRANSFER
      ensures Valid() && fresh(bufR) && fresh(bufW)
      ensures this.testName == testName && this.devR == devR && this.devW == devW
      ensures this.minFrame == minFrame && this.maxFrame == maxFrame && this.iter == iter
      ensures this.protocol == protocol && this.baudRates == baudRates
      ensures comSz == 0 && fdR == -1 && fdW == -1 && stR == Unscheduled && stW == Unscheduled
      ensures rate == 0 && tallies == seq(|baudRates|, _ => Tally(0, 0, 0, 0))
    {
      this.testName, this.devR, this.devW := testName, devR, devW;
      this.minFrame, this.maxFrame, this.iter := minFrame, maxFrame, iter;
      this.protocol, this.baudRates := protocol, baudRates;
      bufR := new byte[MAX_TRANSFER](_ => 0);
      bufW := new byte[MAX_TRANSFER](_ => 0);
      comSz, fdR, fdW := 0, -1, -1;
      stR, stW := Unscheduled, Unscheduled;
      rate := 0;
      tallies := seq(|baudRates|, _ => Tally(0, 0, 0, 0));
    }

    /** `read(fd_r, buf_r + pos, ...)` delivering `chunk`. */
    method Store(pos: nat, chunk: seq<byte>)
      requires Valid() && pos + |chunk| <= MAX_TRANSFER
      modifies bufR
      ensures bufR[..] == old(bufR[..])[..pos] + chunk + old(bufR[..])[pos + |chunk|..]
    {
      forall j | 0 <= j < |chunk| {
        bufR[pos + j] := chunk[j];
      }
    }

    /**
     * `rxTypeTwo`: reassemble the frame of `comSz` bytes from however many
     * reads it takes, then compare it with the transmit buffer; the
     * counters at the current rate record one receive.
     */
    method RxTypeTwo(line: Line) returns (ret: FtRet)
      requires Valid() && rate < |tallies|
      modifies bufR, this`tallies
      ensures Valid()
      ensures ret == Verdict(Assemble(line, comSz), bufW[..comSz])
      ensures bufR[..] == Overwritten(old(bufR[..]), Stored(Assemble(line, comSz)))
      ensures tallies == old(tallies)[rate := CountRx(old(tallies)[rate], ret == FtPass)]
    {
      ret := Reassemble(line);
      tallies := tallies[rate := CountRx(tallies[rate], ret == FtPass)];
    }

    /**
     * One round of `rxTypeTwo`'s read loop at cursor `c`, with `got` stored
     * so far over the buffer's original contents `orig`: either the frame is
     * settled (`stop`, outcome `ret`) or the loop goes on at `c'`, which
     * assembles the same frame.
     */
    method Round(line: Line, c: Cursor, ghost got: seq<byte>, ghost orig: seq<byte>)
      returns (stop: bool, ret: FtRet, c': Cursor, ghost got': seq<byte>)
      requires Valid() && c.pos == |got| && c.pos + c.rem == comSz
      requires |orig| == bufR.Length && bufR[..] == got + orig[c.pos..]
      modifies bufR
      ensures c'.pos == |got'| && c'.pos + c'.rem == comSz && bufR[..] == got' + orig[c'.pos..]
      ensures !stop ==> c.k < |line.selects| && c'.k == c.k + 1
      ensures !stop ==> AssembleFrom(line, c.k, c.rem, c.retries, got) == AssembleFrom(line, c'.k, c'.rem, c'.retries, got')
      ensures stop ==> var a := AssembleFrom(line, c.k, c.rem, c.retries, got);
        Stored(a) == got' && ret == Verdict(a, bufW[..comSz])
    {
      c', got', stop, ret := c, got, true, FtRxTimeout;
      if !Scripted(line, c.k) || line.selects[c.k].SelTimeout? {
        return;
      }
      var failed, eagain := false, false;
      if line.selects[c.k].SelError? {
        failed, eagain := true, line.selects[c.k].eagain;
      } else if line.results[c.k].ReadFailed? {
        failed, eagain := true, line.results[c.k].eagain;
      }
      if failed {
        if eagain && c.retries < RETRY_CNT {
          stop, c' := false, c.(k := c.k + 1, retries := c.retries + 1);
        } else {
          ret := FtRxError;
        }
        return;
      }
      var chunk := Take(line.results[c.k].ready, c.rem);
      Store(c.pos, chunk);
      Splice(got, chunk, orig);
      if |chunk| == c.rem {
        got', c' := got + chunk, c.(pos := c.pos + |chunk|, rem := 0);
        ret := if bufR[..comSz] == bufW[..comSz] then FtPass else FtRxFail;
      } else if |chunk| == 0 {
        ret := FtRxFail;
      } else {
        ShortReadStep(line, c.k, c.rem, c.retries, got, chunk);
        got', stop := got + chunk, false;
        c' := Cursor(c.k + 1, c.rem - |chunk|, 0, c.pos + |chunk|);
      }
    }

    /** The read loop of `rxTypeTwo`, which leaves the counters to its caller. */
    method Reassemble(line: Line) returns (ret: FtRet)
      requires Valid()
      modifies bufR
      ensures ret == Verdict(Assemble(line, comSz), bufW[..comSz])
      ensures bufR[..] == Overwritten(old(bufR[..]), Stored(Assemble(line, comSz)))
    {
      ghost var a := Assemble(line, comSz);
      var c := Cursor(0, comSz, 0, 0);
      ghost var got: seq<byte> := [];
      ghost var orig := bufR[..];
      assert got + orig[c.pos..] == orig;
      var done := false;
      ret := FtFail;
      while !done
        invariant c.pos == |got| && c.pos + c.rem == comSz && bufR[..] == got + orig[c.pos..]
        invariant !done ==> AssembleFrom(line, c.k, c.rem, c.retries, got) == a
        invariant done ==> Stored(a) == got && ret == Verdict(a, bufW[..comSz])
        decreases !done, |line.selects| - c.k
      {
        done, ret, c, got := Round(line, c, got, orig);
      }
    }

    /**
     * `rxTypeZero`: a single read must return the whole frame of `comSz`
     * bytes, which is then compared with the transmit buffer; the counters
     * at the current rate record one receive.
     */
    method RxTypeZero(line: Line) returns (ret: FtRet)
      requires Valid() && rate < |tallies|
      modifies bufR, this`tallies
      ensures Valid()
      ensures ret == Verdict(ReadWholeFrom(line, 0, comSz, 0), bufW[..comSz])
      ensures bufR[..] == Overwritten(old(bufR[..]), Stored(ReadWholeFrom(line, 0, comSz, 0)))
      ensures tallies == old(tallies)[rate := CountRx(old(tallies)[rate], ret == FtPass)]
    {
      ret := ReadWhole(line);
      tallies := tallies[rate := CountRx(tallies[rate], ret == FtPass)];
    }

    /** The read loop of `rxTypeZero`, which leaves the counters to its caller. */
    method ReadWhole(line: Line) returns (ret: FtRet)
      requires Valid()
      modifies bufR
      ensures ret == Verdict(ReadWholeFrom(line, 0, comSz, 0), bufW[..comSz])
      ensures bufR[..] == Overwritten(old(bufR[..]), Stored(ReadWholeFrom(line, 0, comSz, 0)))
    {
      ghost var a := ReadWholeFrom(line, 0, comSz, 0);
      ghost var orig := bufR[..];
      var k: nat, retries: nat := 0, 0;
      while true
        invariant bufR[..] == orig
        invariant ReadWholeFrom(line, k, comSz, retries) == a
        decreases |line.selects| - k
      {
        if !Scripted(line, k) || line.selects[k].SelTimeout? {
          ret := FtRxTimeout;
          assert orig == Overwritten(orig, []);
          break;
        }
        var failed, eagain := false, false;
        if line.selects[k].SelError? {
          failed, eagain := true, line.selects[k].eagain;
        } else if line.results[k].ReadFailed? {
          failed, eagain := true, line.results[k].eagain;
        }
        if failed {
          if eagain && retries < RETRY_CNT {
            k, retries := k + 1, retries + 1;
            continue;
          }
          ret := FtRxError;
          assert orig == Overwritten(orig, []);
          break;
        }
        var chunk := Take(line.results[k].ready, comSz);
        Store(0, chunk);
        assert bufR[..] == Overwritten(orig, chunk);
        if |chunk| == comSz {
          ret := if bufR[..comSz] == bufW[..comSz] then FtPass else FtRxFail;
        } else {
          ret := FtRxFail;
        }
        break;
      }
    }

    /**
     * `rxTypeOne` as intended: the frame of `comSz` bytes is received one
     * byte per read and judged once, as one receive.
     */
    method RxTypeOne(line: Line) returns (ret: FtRet)
      requires Valid() && rate < |tallies|
      modifies bufR, this`tallies
      ensures Valid()
      ensures ret == Verdict(ReadBytewise(line, comSz), bufW[..comSz])
      ensures bufR[..] == Stored(ReadBytewise(line, comSz)) + old(bufR[..])[|Stored(ReadBytewise(line, comSz))|..]
      ensures tallies == old(tallies)[rate := CountRx(old(tallies)[rate], ret == FtPass)]
    {
      ret := RxTypeTwo(ByteAtATime(line));
    }

    /**
     * The transmitter's side of a frame: `write` of the `comSz`-byte frame
     * returned `written` (-1 on error). A short write still passes under the
     * reassembling receiver design 2. The counters at the current rate
     * record one transmit.
     */
    method Transmit(written: int, rxType: nat) returns (ret: FtRet)
      requires Valid() && rate < |tallies| && -1 <= written <= comSz
      modifies this`stW, this`tallies
      ensures Valid()
      ensures stW == TransmitComplete
      ensures ret == TxOutcome(written, comSz, rxType)
      ensures tallies == old(tallies)[rate := CountTx(old(tallies)[rate], ret == FtPass)]
    {
      stW := Transmitting;
      if written == -1 {
        ret := FtTxError;
        tallies := tallies[rate := CountTx(tallies[rate], false)];
      } else if written != comSz {
        if rxType != 2 {
          ret := FtTxFail;
          tallies := tallies[rate := CountTx(tallies[rate], false)];
        } else {
          ret := FtPass;
          tallies := tallies[rate := CountTx(tallies[rate], true)];
        }
      } else {
        ret := FtPass;
        tallies := tallies[rate := CountTx(tallies[rate], true)];
      }
      stW := TransmitComplete;
    }

    /**
     * Prepare the frame of `sz` bytes: the first `sz` receive bytes are
     * zeroed and the first `sz` transmit bytes hold the frame pattern.
     */
    method FillFrame(sz: nat, useAtc: bool)
      requires Valid() && sz <= MAX_TRANSFER
      modifies this`comSz, bufR, bufW
      ensures Valid() && comSz == sz
      ensures bufR[..] == Zeros(sz) + old(bufR[..])[sz..]
      ensures bufW[..] == FramePattern(sz, useAtc) + old(bufW[..])[sz..]
    {
      comSz := sz;
      forall j | 0 <= j < sz {
        bufR[j] := 0;
      }
      forall j | 0 <= j < sz {
        bufW[j] := LowByte(sz);
      }
      if useAtc {
        var n := if sz < |ATC_TEST_STRING| then sz else |ATC_TEST_STRING|;
        forall j | 0 <= j < n {
          bufW[j] := ATC_TEST_STRING[j];
        }
      }
    }

    /** The transmit-only receiver design: the frame becomes `maxFrame` bytes of 0x55. */
    method TransmitOnly()
      requires Valid()
      modifies this`comSz, bufW
      ensures Valid() && comSz == maxFrame
      ensures bufW[..] == Fives(maxFrame) + old(bufW[..])[maxFrame..]
    {
      comSz := maxFrame;
      forall j | 0 <= j < maxFrame {
        bufW[j] := 0x55;
      }
    }

    /** The frame of `comSz` bytes received by receiver design `rxType` (0, 1 or 2). */
    method Receive(rxType: nat, line: Line) returns (ret: FtRet)
      requires Valid() && rate < |tallies| && rxType <= 2
      modifies bufR, this`tallies
      ensures Valid()
      ensures ret == Verdict(FrameAssembly(rxType, line, comSz), bufW[..comSz])
      ensures tallies == old(tallies)[rate := CountRx(old(tallies)[rate], ret == FtPass)]
    {
      if rxType == 0 {
        ret := RxTypeZero(line);
      } else if rxType == 1 {
        ret := RxTypeOne(line);
      } else {
        ret := RxTypeTwo(line);
      }
    }

    /**
     * One frame of the sweep: fill the buffers for `sz` bytes, wait for the
     * transmitter and, if it got ready, receive the frame by receiver
     * design `rxType`; `prev` is the outcome so far.
     */
    method RunFrame(rxType: nat, sz: nat, useAtc: bool, sc: FrameScript, prev: FtRet) returns (ret: FtRet)
      requires Valid() && rate < |tallies| && sz <= MAX_TRANSFER && prev != FtTxTimeout
      modifies this`comSz, this`stR, bufR, bufW, this`tallies
      ensures Valid() && rate < |tallies|
      ensures ret == FrameOutcome(rxType, sz, useAtc, sc, prev)
      ensures ret == FtTxTimeout <==> !sc.txReady
      ensures tallies == old(tallies)[rate := CountFrame(rxType, old(tallies)[rate], ret)]
      ensures stR == if sc.txReady then Receiving else old(stR)
      ensures comSz == if rxType == 3 && sc.txReady then maxFrame else sz
    {
      FillFrame(sz, useAtc);
      assert bufW[..sz] == FramePattern(sz, useAtc);
      if !sc.txReady {
        return FtTxTimeout;
      }
      stR := Receiving;
      if rxType <= 2 {
        ret := Receive(rxType, sc.line);
      } else if rxType == 3 {
        ret := prev;
        TransmitOnly();
      } else {
        ret := FtError;
      }
    }

    /**
     * The frame sweep at the current rate from size `sz` (frame `j`) on:
     * for each size up to `maxFrame` the buffers are filled, the
     * transmitter is awaited and the frame is received by receiver design
     * `rxType`; the outcomes are those of `SweepFrom`, and the counters at
     * the current rate record one receive per frame received.
     */
    method SweepFrames(rxType: nat, sz: nat, useAtc: bool, quickFail: bool, scripts: seq<FrameScript>,
                           j: nat, prev: FtRet)
      returns (ret: FtRet, verdicts: seq<FtRet>)
      requires Valid() && rate < |tallies| && prev != FtTxTimeout
      modifies this`comSz, this`stR, bufR, bufW, this`tallies
      ensures Valid()
      ensures verdicts == SweepFrom(rxType, sz, maxFrame, useAtc, quickFail, scripts, j, prev)
      ensures ret == LastOr(verdicts, prev)
      ensures tallies == old(tallies)[rate := CountFrames(rxType, old(tallies)[rate], verdicts)]
      ensures stR == if Started(verdicts) then Receiving else old(stR)
      ensures comSz == SweptSize(rxType, verdicts, old(comSz), sz, maxFrame)
      decreases maxFrame + 1 - sz
    {
      if sz > maxFrame {
        return prev, [];
      }
      var v := RunFrame(rxType, sz, useAtc, ScriptAt(scripts, j), prev);
      SweepStep(rxType, sz, maxFrame, useAtc, quickFail, scripts, j, prev);
      if StopsSweep(v, quickFail) {
        ret, verdicts := v, [v];
        FirstFrame(rxType, v, prev, old(tallies)[rate], old(comSz), sz, maxFrame);
        return;
      }
      ghost var t1 := tallies;
      assert t1[rate] == CountFrame(rxType, old(tallies)[rate], v);
      var rest;
      ret, rest := SweepFrames(rxType, sz + 1, useAtc, quickFail, scripts, j + 1, v);
      verdicts := [v] + rest;
      MoreFrames(rxType, v, rest, prev, old(tallies)[rate], old(comSz), sz, maxFrame);
      Overwrite(old(tallies), rate, t1[rate], CountFrames(rxType, t1[rate], rest));
    }
  }
}
