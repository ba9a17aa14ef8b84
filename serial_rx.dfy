/**
 * The receivers and the transmitter of the threaded serial loopback test.
 *
 * A receiver waits with `select` for the port to become readable and then
 * `read`s it; the device is abstracted as a script of what each `select`
 * and each `read` returns, round by round. Once the script runs out the
 * port stays silent and `select` times out.
 */
module SerialRx {
  import opened FitTypes
  import opened SerialDefs

  /** What a `select` on the receive port returned: a timeout, an error (with errno EAGAIN or not), or readable. */
  datatype SelectOutcome = SelTimeout | SelError(eagain: bool) | SelReady

  /** What a `read` of the port gave: an error (EAGAIN or not), or the bytes the device had ready. */
  datatype ReadOutcome = ReadFailed(eagain: bool) | ReadBytes(ready: seq<byte>)

  /** The script of a receive port: the outcome of the `k`th `select` and of the `read` that follows it. */
  datatype Line = Line(selects: seq<SelectOutcome>, results: seq<ReadOutcome>)

  /** Whether round `k` of the line is scripted; after the script the line is silent. */
  predicate Scripted(line: Line, k: nat)
  {
    k < |line.selects| && k < |line.results|
  }

  /** The outcomes a receive can stop with short of a frame. */
  type RxStop = r: FtRet | r == FtRxTimeout || r == FtRxError || r == FtRxFail witness FtRxFail

  /** How a receive ended: a frame of the requested size assembled, or stopped with an outcome and the bytes stored so far. */
  datatype Assembly = Assembled(frame: seq<byte>) | Stopped(ret: RxStop, stored: seq<byte>)

  /** The bytes a receive left in the buffer. */
  function Stored(a: Assembly): seq<byte>
  {
    match a
    case Assembled(frame) => frame
    case Stopped(_, stored) => stored
  }

  /** The outcome of a receive whose payload is compared with `expected`. */
  function Verdict(a: Assembly, expected: seq<byte>): (ret: FtRet)
    ensures a.Assembled? ==> (ret == FtPass <==> a.frame == expected)
    ensures a.Stopped? ==> ret == a.ret
    ensures ret == FtPass || ret == FtRxFail || ret == FtRxTimeout || ret == FtRxError
  {
    match a
    case Assembled(frame) => if frame == expected then FtPass else FtRxFail
    case Stopped(ret, _) => ret
  }

  // ---------------------------------------------------------------------
  // Receiver type 2: reassemble fragments
  // ---------------------------------------------------------------------

  /**
   * `rxTypeTwo` from round `k` on, with `rem` bytes still to come, `retries`
   * EAGAIN failures since the last progress and `got` the bytes stored so
   * far. A short non-empty read stores its bytes, shrinks `rem` and resets
   * the retries; an empty read fails the frame.
   */
  function AssembleFrom(line: Line, k: nat, rem: nat, retries: nat, got: seq<byte>): (a: Assembly)
    ensures a.Assembled? ==> |a.frame| == |got| + rem && a.frame[..|got|] == got
    ensures a.Stopped? ==> |got| <= |a.stored| <= |got| + rem && a.stored[..|got|] == got
    ensures a.Stopped? && rem > 0 ==> |a.stored| < |got| + rem
    decreases |line.selects| - k
  {
    if !Scripted(line, k) then Stopped(FtRxTimeout, got)
    else match line.selects[k]
      case SelTimeout => Stopped(FtRxTimeout, got)
      case SelError(eagain) =>
        if eagain && retries < RETRY_CNT then AssembleFrom(line, k + 1, rem, retries + 1, got)
        else Stopped(FtRxError, got)
      case SelReady =>
        match line.results[k]
        case ReadFailed(eagain) =>
          if eagain && retries < RETRY_CNT then AssembleFrom(line, k + 1, rem, retries + 1, got)
          else Stopped(FtRxError, got)
        case ReadBytes(ready) =>
          var chunk := Take(ready, rem);
          if |chunk| == rem then Assembled(got + chunk)
          else if |chunk| != 0 then
            var a := AssembleFrom(line, k + 1, rem - |chunk|, 0, got + chunk);
            assert (got + chunk)[..|got|] == got;
            a
          else Stopped(FtRxFail, got)
  }

  /** `rxTypeTwo` for a frame of `sz` bytes. */
  function Assemble(line: Line, sz: nat): Assembly
  {
    AssembleFrom(line, 0, sz, 0, [])
  }

  /** The concatenation of the fragments a frame arrives in. */
  function Concat(chunks: seq<seq<byte>>): seq<byte>
  {
    if chunks == [] then [] else chunks[0] + Concat(chunks[1..])
  }

  /** From round `k` on, the line is readable and delivers exactly `chunks`, one per read. */
  predicate Delivers(line: Line, k: nat, chunks: seq<seq<byte>>)
  {
    && k + |chunks| <= |line.selects| && k + |chunks| <= |line.results|
    && forall j :: k <= j < k + |chunks| ==> line.selects[j] == SelReady && line.results[j] == ReadBytes(chunks[j - k])
  }

  /**
   * However a frame is fragmented, `rxTypeTwo` reassembles it: non-empty
   * fragments that add up to the rest of the frame complete it, whatever
   * the EAGAIN count was.
   */
  lemma {:induction false} FragmentsReassemble(line: Line, k: nat, chunks: seq<seq<byte>>, retries: nat, got: seq<byte>)
    requires Delivers(line, k, chunks) && |chunks| > 0
    requires forall j :: 0 <= j < |chunks| ==> |chunks[j]| > 0
    ensures AssembleFrom(line, k, |Concat(chunks)|, retries, got) == Assembled(got + Concat(chunks))
    decreases |chunks|
  {
    var rest := chunks[1..];
    assert line.selects[k] == SelReady && line.results[k] == ReadBytes(chunks[0]);
    if rest == [] {
      assert Concat(chunks) == chunks[0];
    } else {
      assert Delivers(line, k + 1, rest) by {
        forall j | k + 1 <= j < k + 1 + |rest|
          ensures line.selects[j] == SelReady && line.results[j] == ReadBytes(rest[j - (k + 1)])
        {
          assert line.results[j] == ReadBytes(chunks[j - k]);
        }
      }
      assert |Concat(rest)| > 0 by { assert |rest[0]| > 0; }
      FragmentsReassemble(line, k + 1, rest, 0, got + chunks[0]);
      assert got + chunks[0] + Concat(rest) == got + Concat(chunks);
    }
  }

  /** A frame delivered intact, in any fragmentation, passes. */
  lemma FragmentedFramePasses(line: Line, chunks: seq<seq<byte>>, expected: seq<byte>)
    requires Delivers(line, 0, chunks) && |chunks| > 0
    requires forall j :: 0 <= j < |chunks| ==> |chunks[j]| > 0
    requires Concat(chunks) == expected
    ensures Verdict(Assemble(line, |expected|), expected) == FtPass
  {
    FragmentsReassemble(line, 0, chunks, 0, []);
  }

  /** A read that returns nothing, while bytes are still expected, fails the frame with the bytes stored so far. */
  lemma EmptyReadFails(line: Line, k: nat, rem: nat, retries: nat, got: seq<byte>)
    requires Scripted(line, k) && line.selects[k] == SelReady && line.results[k] == ReadBytes([]) && rem > 0
    ensures AssembleFrom(line, k, rem, retries, got) == Stopped(FtRxFail, got)
  {
  }

  predicate EagainRound(line: Line, k: nat)
  {
    Scripted(line, k) && (line.selects[k] == SelError(true) || (line.selects[k] == SelReady && line.results[k] == ReadFailed(true)))
  }

  /** One EAGAIN failure, while retries remain, only moves on to the next round. */
  lemma EagainStep(line: Line, k: nat, rem: nat, retries: nat, got: seq<byte>)
    requires retries < RETRY_CNT && EagainRound(line, k)
    ensures AssembleFrom(line, k, rem, retries, got) == AssembleFrom(line, k + 1, rem, retries + 1, got)
  {
  }

  /** Up to `RETRY_CNT` EAGAIN failures in a row are waited out; the count carries over. */
  lemma {:induction false} EagainTolerated(line: Line, k: nat, m: nat, rem: nat, retries: nat, got: seq<byte>)
    requires retries + m <= RETRY_CNT
    requires forall j :: k <= j < k + m ==> EagainRound(line, j)
    ensures AssembleFrom(line, k, rem, retries, got) == AssembleFrom(line, k + m, rem, retries + m, got)
    decreases m
  {
    if m > 0 {
      assert EagainRound(line, k);
      EagainStep(line, k, rem, retries, got);
      EagainTolerated(line, k + 1, m - 1, rem, retries + 1, got);
    }
  }

  /** The third EAGAIN failure in a row ends the receive with an error. */
  lemma EagainExhausted(line: Line, k: nat, rem: nat, got: seq<byte>)
    requires forall j :: k <= j <= k + RETRY_CNT ==> EagainRound(line, j)
    ensures AssembleFrom(line, k, rem, 0, got) == Stopped(FtRxError, got)
  {
    EagainTolerated(line, k, RETRY_CNT, rem, 0, got);
    assert EagainRound(line, k + RETRY_CNT);
  }

  /** A short non-empty read is progress: it stores its bytes and the EAGAIN count starts again from zero, whatever it was. */
  lemma ShortReadStep(line: Line, k: nat, rem: nat, retries: nat, got: seq<byte>, ready: seq<byte>)
    requires Scripted(line, k) && line.selects[k] == SelReady && line.results[k] == ReadBytes(ready)
    requires 0 < |ready| < rem
    ensures AssembleFrom(line, k, rem, retries, got) == AssembleFrom(line, k + 1, rem - |ready|, 0, got + ready)
  {
    assert Take(ready, rem) == ready;
  }

  // ---------------------------------------------------------------------
  // Receiver type 0: one read of the whole frame
  // ---------------------------------------------------------------------

  /** `rxTypeZero` from round `k` on: a single read must return the whole frame of `sz` bytes. */
  function ReadWholeFrom(line: Line, k: nat, sz: nat, retries: nat): (a: Assembly)
    ensures a.Assembled? ==> |a.frame| == sz
    ensures a.Stopped? ==> |a.stored| <= sz
    ensures a.Stopped? && a.ret == FtRxFail ==> |a.stored| < sz
    decreases |line.selects| - k
  {
    if !Scripted(line, k) then Stopped(FtRxTimeout, [])
    else match line.selects[k]
      case SelTimeout => Stopped(FtRxTimeout, [])
      case SelError(eagain) =>
        if eagain && retries < RETRY_CNT then ReadWholeFrom(line, k + 1, sz, retries + 1)
        else Stopped(FtRxError, [])
      case SelReady =>
        match line.results[k]
        case ReadFailed(eagain) =>
          if eagain && retries < RETRY_CNT then ReadWholeFrom(line, k + 1, sz, retries + 1)
          else Stopped(FtRxError, [])
        case ReadBytes(ready) =>
          var chunk := Take(ready, sz);
          if |chunk| == sz then Assembled(chunk) else Stopped(FtRxFail, chunk)
  }

  /** Type 0 passes only a frame that arrives in one piece; the same frame in two pieces fails, where type 2 passes it. */
  lemma SplitFrameFailsTypeZero(line: Line, first: seq<byte>, second: seq<byte>)
    requires Delivers(line, 0, [first, second]) && |first| > 0 && |second| > 0
    ensures ReadWholeFrom(line, 0, |first + second|, 0) == Stopped(FtRxFail, first)
    ensures Assemble(line, |first + second|) == Assembled(first + second)
  {
    assert line.selects[0] == SelReady && line.results[0] == ReadBytes(first);
    assert Concat([first, second]) == first + second by {
      assert [first, second][1..] == [second];
      assert Concat([second]) == second;
    }
    FragmentsReassemble(line, 0, [first, second], 0, []);
  }

  // ---------------------------------------------------------------------
  // Counters
  // ---------------------------------------------------------------------

  /** Per-rate communication statistics (`rxOK`, `rxNG`, `txOK`, `txNG` of `bRate_t`). */
  datatype Tally = Tally(rxOK: u32, rxNG: u32, txOK: u32, txNG: u32)

  /** One receive counted: `rxOK` on a pass, `rxNG` otherwise. */
  function CountRx(t: Tally, pass: bool): Tally
  {
    if pass then t.(rxOK := Inc32(t.rxOK)) else t.(rxNG := Inc32(t.rxNG))
  }

  /** One transmit counted: `txOK` on a pass, `txNG` otherwise. */
  function CountTx(t: Tally, pass: bool): Tally
  {
    if pass then t.(txOK := Inc32(t.txOK)) else t.(txNG := Inc32(t.txNG))
  }

  /** Receives counted so far, pass or not. */
  function Received(t: Tally): int
  {
    t.rxOK as int + t.rxNG as int
  }

  /** Transmits counted so far, pass or not. */
  function Sent(t: Tally): int
  {
    t.txOK as int + t.txNG as int
  }

  /** Until the counters wrap, each receive counts exactly once, on the side its outcome says, and leaves the transmit counters alone. */
  lemma CountRxOnce(t: Tally, pass: bool)
    requires Received(t) < 0xffff_ffff
    ensures Received(CountRx(t, pass)) == Received(t) + 1
    ensures CountRx(t, pass).rxOK > t.rxOK <==> pass
    ensures CountRx(t, pass).txOK == t.txOK && CountRx(t, pass).txNG == t.txNG
  {
  }

  /** Until the counters wrap, each transmit counts exactly once, on the side its outcome says, and leaves the receive counters alone. */
  lemma CountTxOnce(t: Tally, pass: bool)
    requires Sent(t) < 0xffff_ffff
    ensures Sent(CountTx(t, pass)) == Sent(t) + 1
    ensures CountTx(t, pass).txOK > t.txOK <==> pass
    ensures CountTx(t, pass).rxOK == t.rxOK && CountTx(t, pass).rxNG == t.rxNG
  {
  }

  // ---------------------------------------------------------------------
  // Receiver type 1: one byte per read
  // ---------------------------------------------------------------------

  /**
   * What `rxTypeOne` carries from byte to byte: the round `k` of the line,
   * the byte index `i`, the receive buffer, the write position, the retry
   * count, whether `select` still watches the port (a timed-out `select`
   * clears its descriptor set, which is not rebuilt), the counters and the
   * last outcome.
   */
  datatype ByteLoop = ByteLoop(k: nat, i: nat, buf: seq<byte>, pos: nat, retries: nat,
                               watching: bool, tally: Tally, ret: FtRet)

  /** Byte `s.i` ends with outcome `ret`: count it, move the write position to `pos` and go on with round `k`. */
  function ByteDone(s: ByteLoop, ret: FtRet, pos: nat, k: nat): (t: ByteLoop)
  {
    s.(k := k, i := s.i + 1, pos := pos, tally := CountRx(s.tally, ret == FtPass), ret := ret)
  }

  /** A `select` or `read` of byte `s.i` failed: an EAGAIN retry while retries remain, otherwise an error for this byte (the retry count restarts after EAGAIN exhaustion). */
  function ByteFailed(s: ByteLoop, eagain: bool): (t: ByteLoop)
  {
    if eagain && s.retries < RETRY_CNT then s.(k := s.k + 1, retries := s.retries + 1)
    else ByteDone(s.(retries := if eagain then 0 else s.retries), FtRxError, s.pos + 1, s.k + 1)
  }

  /** A byte stored at `pos`; a store past the buffer is not modelled. */
  function Put(buf: seq<byte>, pos: nat, b: byte): (r: seq<byte>)
    ensures |r| == |buf|
    ensures pos < |buf| ==> r == buf[pos := b]
    ensures pos >= |buf| ==> r == buf
  {
    if pos < |buf| then buf[pos := b] else buf
  }

  /**
   * One pass through the body of `rxTypeOne`'s loop, as the program has it:
   * an EAGAIN retry stays on the same byte; anything else ends the byte,
   * counts it as a receive of its own and, after a byte is read, compares
   * the whole frame with `expected`. A mismatch leaves the write position
   * one past the frame, because the failure dump reuses the write pointer.
   */
  function ByteStep(line: Line, sz: nat, expected: seq<byte>, s: ByteLoop): (t: ByteLoop)
    requires s.i < sz
    ensures |t.buf| == |s.buf|
    ensures t.i == s.i + 1 ==> t.tally == CountRx(s.tally, t.ret == FtPass) && t.k >= s.k
    ensures t.i != s.i + 1 ==> t.i == s.i && t.k == s.k + 1 && s.k < |line.selects| && t.tally == s.tally
  {
    if !s.watching || !Scripted(line, s.k) then ByteDone(s, FtRxTimeout, s.pos + 1, s.k)
    else
      match line.selects[s.k]
      case SelTimeout => ByteDone(s.(watching := false), FtRxTimeout, s.pos + 1, s.k + 1)
      case SelError(eagain) => ByteFailed(s, eagain)
      case SelReady =>
        match line.results[s.k]
        case ReadFailed(eagain) => ByteFailed(s, eagain)
        case ReadBytes(ready) =>
          var chunk := Take(ready, 1);
          if |chunk| != 1 then ByteDone(s, FtRxFail, s.pos + 1, s.k + 1)
          else
            var buf := Put(s.buf, s.pos, chunk[0]);
            if sz <= |buf| && buf[..sz] == expected then ByteDone(s.(buf := buf), FtPass, s.pos + 1, s.k + 1)
            else ByteDone(s.(buf := buf), FtRxFail, sz + 1, s.k + 1)
  }

  /** `rxTypeOne`'s loop from state `s` until all `sz` bytes are done. */
  function ByteLoopRun(line: Line, sz: nat, expected: seq<byte>, s: ByteLoop): (t: ByteLoop)
    requires s.i <= sz
    ensures |t.buf| == |s.buf| && t.i == sz
    decreases sz - s.i, |line.selects| - s.k
  {
    if s.i == sz then s else ByteLoopRun(line, sz, expected, ByteStep(line, sz, expected, s))
  }

  /** `rxTypeOne` as written, on a receive buffer `buf` and with counters `tally`: the outcome of its last byte (`ftFail` for an empty frame). */
  function RxTypeOneAsWritten(line: Line, sz: nat, expected: seq<byte>, buf: seq<byte>, tally: Tally): ByteLoop
  {
    ByteLoopRun(line, sz, expected, ByteLoop(0, 0, buf, 0, 0, true, tally, FtFail))
  }

  /** As written, `rxTypeOne` counts every byte as a receive: the receive counters grow by the frame size, not by one. */
  lemma {:induction false} RxOneCountsEveryByte(line: Line, sz: nat, expected: seq<byte>, s: ByteLoop)
    requires s.i <= sz && Received(s.tally) + (sz - s.i) <= 0xffff_ffff
    ensures Received(ByteLoopRun(line, sz, expected, s).tally) == Received(s.tally) + (sz - s.i)
    ensures ByteLoopRun(line, sz, expected, s).tally.txOK == s.tally.txOK
    ensures ByteLoopRun(line, sz, expected, s).tally.txNG == s.tally.txNG
    decreases sz - s.i, |line.selects| - s.k
  {
    if s.i < sz {
      var t := ByteStep(line, sz, expected, s);
      if t.i == s.i + 1 {
        CountRxOnce(s.tally, t.ret == FtPass);
      }
      RxOneCountsEveryByte(line, sz, expected, t);
    }
  }

  /** The line a two-byte frame arrives on, one byte per read. */
  function TwoSingleBytes(b: byte): Line
  {
    Line([SelReady, SelReady], [ReadBytes([b]), ReadBytes([b])])
  }

  /**
   * As written, `rxTypeOne` rejects a good frame: the two bytes of the
   * frame [2, 2] arrive intact, one per read, into a zeroed buffer, and the
   * receive fails with `rxNG` counted twice, while the byte-at-a-time
   * reassembly passes it.
   */
  lemma RxOneRejectsGoodFrame(buf: seq<byte>, tally: Tally)
    requires |buf| > 3 && buf[0] == 0 && buf[1] == 0
    ensures RxTypeOneAsWritten(TwoSingleBytes(2), 2, [2, 2], buf, tally).ret == FtRxFail
    ensures RxTypeOneAsWritten(TwoSingleBytes(2), 2, [2, 2], buf, tally).tally == CountRx(CountRx(tally, false), false)
    ensures Verdict(Assemble(ByteAtATime(TwoSingleBytes(2)), 2), [2, 2]) == FtPass
  {
    var line := TwoSingleBytes(2);
    var s0 := ByteLoop(0, 0, buf, 0, 0, true, tally, FtFail);
    var s1 := ByteStep(line, 2, [2, 2], s0);
    assert Put(buf, 0, 2)[..2] == [2, 0];
    assert s1 == ByteLoop(1, 1, buf[0 := 2], 3, 0, true, CountRx(tally, false), FtRxFail);
    var s2 := ByteStep(line, 2, [2, 2], s1);
    assert buf[0 := 2][3 := 2][..2] == [2, 0];
    assert s2 == ByteLoop(2, 2, buf[0 := 2][3 := 2], 3, 0, true, CountRx(CountRx(tally, false), false), FtRxFail);
    assert ByteLoopRun(line, 2, [2, 2], s1) == ByteLoopRun(line, 2, [2, 2], s2) == s2;
    assert ByteLoopRun(line, 2, [2, 2], s0) == ByteLoopRun(line, 2, [2, 2], s1);
    assert ByteAtATime(line) == line;
  }

  /** The line as a receiver that asks for one byte per read sees it: each read yields at most its first ready byte. */
  function ByteAtATime(line: Line): (l: Line)
    ensures l.selects == line.selects && |l.results| == |line.results|
    ensures forall k :: 0 <= k < |line.results| && line.results[k].ReadBytes? ==>
      l.results[k] == ReadBytes(Take(line.results[k].ready, 1))
    ensures forall k :: 0 <= k < |line.results| && line.results[k].ReadFailed? ==> l.results[k] == line.results[k]
  {
    Line(line.selects, seq(|line.results|, k requires 0 <= k < |line.results| =>
      match line.results[k]
      case ReadBytes(ready) => ReadBytes(Take(ready, 1))
      case ReadFailed(e) => ReadFailed(e)))
  }

  /** `rxTypeOne` as intended: the frame is assembled one byte per read and judged once. */
  function ReadBytewise(line: Line, sz: nat): Assembly
  {
    Assemble(ByteAtATime(line), sz)
  }

  /** A frame split into its single bytes. */
  function Singles(frame: seq<byte>): (chunks: seq<seq<byte>>)
    ensures |chunks| == |frame| && forall j :: 0 <= j < |frame| ==> chunks[j] == [frame[j]]
  {
    seq(|frame|, j requires 0 <= j < |frame| => [frame[j]])
  }

  lemma {:induction false} ConcatSingles(frame: seq<byte>)
    ensures Concat(Singles(frame)) == frame
    decreases |frame|
  {
    if frame != [] {
      assert Singles(frame)[1..] == Singles(frame[1..]);
      ConcatSingles(frame[1..]);
    }
  }

  /** Byte-at-a-time reception passes a frame that arrives intact, one byte per read. */
  lemma BytewiseFramePasses(line: Line, expected: seq<byte>)
    requires |expected| > 0 && Delivers(line, 0, Singles(expected))
    ensures Verdict(ReadBytewise(line, |expected|), expected) == FtPass
  {
    var chunks := Singles(expected);
    assert Delivers(ByteAtATime(line), 0, chunks) by {
      forall j | 0 <= j < |chunks|
        ensures ByteAtATime(line).results[j] == ReadBytes(chunks[j - 0])
      {
        assert line.results[j] == ReadBytes(chunks[j - 0]);
      }
    }
    ConcatSingles(expected);
    FragmentedFramePasses(ByteAtATime(line), chunks, expected);
  }
}
