/**
 * The outcome accumulator of `fit.c`: every test reports each attempt's
 * outcome token to `ftUpdateTestStatus`, which counts it in a results record
 * and, on `ftComplete`, writes the pass/fail verdict and the non-zero counts
 * to the log.
 */
module FitStatus {
  import opened FitTypes

  /** The fifteen counters of an `ftResults_t` record. */
  datatype Counter =
    | StartCnt | CompleteCnt | PassCnt | FailCnt | ErrorCnt | SignalCnt
    | TxErrorCnt | TxFailCnt | RxErrorCnt | RxTimeoutCnt | RxFailCnt
    | NewlineCnt | InformationCnt | UnimplementedCnt | InterruptCnt

  /** A snapshot of a results record, field by field. */
  datatype Counts = Counts(
    start: u32, complete: u32, pass: u32, fail: u32, error: u32, signal: u32,
    txError: u32, txFail: u32, rxError: u32, rxTimeout: u32, rxFail: u32,
    newline: u32, information: u32, unimplemented: u32, interrupt: u32)

  const ZERO_COUNTS := Counts(0, 0, 0, 0, 0, 0, 0, 0, 0, 0, 0, 0, 0, 0, 0)

  function Field(c: Counts, k: Counter): u32
  {
    match k
    case StartCnt => c.start
    case CompleteCnt => c.complete
    case PassCnt => c.pass
    case FailCnt => c.fail
    case ErrorCnt => c.error
    case SignalCnt => c.signal
    case TxErrorCnt => c.txError
    case TxFailCnt => c.txFail
    case RxErrorCnt => c.rxError
    case RxTimeoutCnt => c.rxTimeout
    case RxFailCnt => c.rxFail
    case NewlineCnt => c.newline
    case InformationCnt => c.information
    case UnimplementedCnt => c.unimplemented
    case InterruptCnt => c.interrupt
  }

  /** `c` with counter `k` incremented (as a u_int32). */
  function Bump(c: Counts, k: Counter): (r: Counts)
    ensures forall j :: Field(r, j) == if j == k then Inc32(Field(c, j)) else Field(c, j)
  {
    match k
    case StartCnt => c.(start := Inc32(c.start))
    case CompleteCnt => c.(complete := Inc32(c.complete))
    case PassCnt => c.(pass := Inc32(c.pass))
    case FailCnt => c.(fail := Inc32(c.fail))
    case ErrorCnt => c.(error := Inc32(c.error))
    case SignalCnt => c.(signal := Inc32(c.signal))
    case TxErrorCnt => c.(txError := Inc32(c.txError))
    case TxFailCnt => c.(txFail := Inc32(c.txFail))
    case RxErrorCnt => c.(rxError := Inc32(c.rxError))
    case RxTimeoutCnt => c.(rxTimeout := Inc32(c.rxTimeout))
    case RxFailCnt => c.(rxFail := Inc32(c.rxFail))
    case NewlineCnt => c.(newline := Inc32(c.newline))
    case InformationCnt => c.(information := Inc32(c.information))
    case UnimplementedCnt => c.(unimplemented := Inc32(c.unimplemented))
    case InterruptCnt => c.(interrupt := Inc32(c.interrupt))
  }

  /**
   * The counter of the caller's record that a token increments, if any.
   * `ftTxTimeout` shares `ftTxFailCnt` with `ftTxFail`; `ftStart`,
   * `ftInterrupt` and `ftUnimplemented` go to the file-global record instead.
   */
  function RecordCounter(t: FtRet): Option<Counter>
  {
    match t
    case FtComplete => Some(CompleteCnt)
    case FtPass => Some(PassCnt)
    case FtFail => Some(FailCnt)
    case FtError => Some(ErrorCnt)
    case FtSignal => Some(SignalCnt)
    case FtTxError => Some(TxErrorCnt)
    case FtTxTimeout => Some(TxFailCnt)
    case FtTxFail => Some(TxFailCnt)
    case FtRxError => Some(RxErrorCnt)
    case FtRxTimeout => Some(RxTimeoutCnt)
    case FtRxFail => Some(RxFailCnt)
    case FtNewline => Some(NewlineCnt)
    case FtInformation => Some(InformationCnt)
    case _ => None
  }

  /** The counter of the file-global record that a token increments, if any. */
  function GlobalCounter(t: FtRet): Option<Counter>
  {
    match t
    case FtStart => Some(StartCnt)
    case FtInterrupt => Some(InterruptCnt)
    case FtUnimplemented => Some(UnimplementedCnt)
    case _ => None
  }

  function BumpOpt(c: Counts, k: Option<Counter>): Counts
  {
    if k.Some? then Bump(c, k.value) else c
  }

  /** Tokens that only count an attempt and leave the log alone. */
  predicate IsAttempt(t: FtRet)
  {
    !(t == FtStart || t == FtComplete || t == FtInformation)
  }

  /** Every token is counted exactly once, in exactly one of the two records. */
  lemma EachTokenCountedOnce(t: FtRet)
    ensures RecordCounter(t).Some? != GlobalCounter(t).Some?
  {
  }

  /** Two different outcome tokens land on the same counter only for the two transmit failures. */
  lemma SharedCounter(t: FtRet, u: FtRet)
    requires t != u && RecordCounter(t).Some? && RecordCounter(t) == RecordCounter(u)
    ensures {t, u} == {FtTxTimeout, FtTxFail}
  {
  }

  // ---------------------------------------------------------------------
  // The verdict of ftComplete
  // ---------------------------------------------------------------------

  datatype Verdict = Failed | Passed | DidNotRun

  /** The counters that mark a test as failed when any of them is non-zero. */
  const FAILURE_COUNTERS: set<Counter> :=
    {FailCnt, ErrorCnt, SignalCnt, TxErrorCnt, TxFailCnt, RxErrorCnt, RxTimeoutCnt, RxFailCnt}

  function VerdictOf(c: Counts): Verdict
  {
    if c.fail != 0 || c.error != 0 || c.signal != 0 || c.txError != 0 ||
       c.txFail != 0 || c.rxError != 0 || c.rxTimeout != 0 || c.rxFail != 0
    then Failed
    else if c.pass != 0 then Passed
    else DidNotRun
  }

  /**
   * The verdict, stated against the set of failure counters: failed exactly
   * when one of them is non-zero, passed exactly when none is and some pass
   * was counted, and otherwise "did not run correctly".
   */
  lemma VerdictMeaning(c: Counts)
    ensures VerdictOf(c) == Failed <==> exists k :: k in FAILURE_COUNTERS && Field(c, k) != 0
    ensures VerdictOf(c) == Passed <==>
      (forall k :: k in FAILURE_COUNTERS ==> Field(c, k) == 0) && c.pass != 0
    ensures VerdictOf(c) == DidNotRun <==>
      (forall k :: k in FAILURE_COUNTERS ==> Field(c, k) == 0) && c.pass == 0
  {
    if VerdictOf(c) == Failed {
      var k :| k in FAILURE_COUNTERS && Field(c, k) != 0 by {
        if c.fail != 0 { assert Field(c, FailCnt) != 0; }
        else if c.error != 0 { assert Field(c, ErrorCnt) != 0; }
        else if c.signal != 0 { assert Field(c, SignalCnt) != 0; }
        else if c.txError != 0 { assert Field(c, TxErrorCnt) != 0; }
        else if c.txFail != 0 { assert Field(c, TxFailCnt) != 0; }
        else if c.rxError != 0 { assert Field(c, RxErrorCnt) != 0; }
        else if c.rxTimeout != 0 { assert Field(c, RxTimeoutCnt) != 0; }
        else { assert Field(c, RxFailCnt) != 0; }
      }
    } else {
      assert Field(c, FailCnt) == 0 && Field(c, ErrorCnt) == 0 && Field(c, SignalCnt) == 0;
      assert Field(c, TxErrorCnt) == 0 && Field(c, TxFailCnt) == 0 && Field(c, RxErrorCnt) == 0;
      assert Field(c, RxTimeoutCnt) == 0 && Field(c, RxFailCnt) == 0;
    }
  }

  /** A test that counted no outcome at all did not run correctly. */
  lemma FreshRecordDidNotRun()
    ensures VerdictOf(ZERO_COUNTS) == DidNotRun
  {
  }

  /** Neither a pass nor an informational line can turn a failed verdict into a passed one. */
  lemma FailureSticks(c: Counts, t: FtRet)
    requires VerdictOf(c) == Failed
    requires t != FtFail && t != FtError && t != FtSignal && t != FtTxError && t != FtTxTimeout
    requires t != FtTxFail && t != FtRxError && t != FtRxTimeout && t != FtRxFail
    ensures VerdictOf(BumpOpt(c, RecordCounter(t))) == Failed
  {
  }

  // ---------------------------------------------------------------------
  // The log text
  // ---------------------------------------------------------------------

  /** `toupper` in the C locale. */
  function Upper(s: string): (r: string)
    ensures |r| == |s|
    ensures forall i :: 0 <= i < |s| ==>
      r[i] == if 'a' <= s[i] <= 'z' then (s[i] as int - 32) as char else s[i]
  {
    if s == [] then []
    else Upper(s[..|s| - 1]) + [if 'a' <= s[|s| - 1] <= 'z' then (s[|s| - 1] as int - 32) as char else s[|s| - 1]]
  }

  /** `s` left-justified in a field of `width` characters, as `%-*s` prints it. */
  function PadRight(s: string, width: nat): (r: string)
    ensures |r| == if |s| >= width then |s| else width
    ensures r[..|s|] == s && forall i :: |s| <= i < |r| ==> r[i] == ' '
  {
    if |s| >= width then s else s + seq(width - |s|, _ => ' ')
  }

  /** The digits `s` zero-filled on the left to `width` characters, as `%4.4lu` prints them. */
  function PadZeros(s: string, width: nat): (r: string)
    ensures |r| == if |s| >= width then |s| else width
    ensures r[|r| - |s|..] == s && forall i :: 0 <= i < |r| - |s| ==> r[i] == '0'
  {
    if |s| >= width then s else seq(width - |s|, _ => '0') + s
  }

  /** The 25 blanks that indent the count lines. */
  const INDENT := "                         "

  /** One `printCountIfNonzero` line, `"%-9s %4.4lu\n"` after the indent; nothing for a zero count. */
  function CountLine(cnt: u32, name: string): string
  {
    if cnt == 0 then "" else INDENT + PadRight(name, 9) + " " + PadZeros(Decimal(cnt as nat), 4) + "\n"
  }

  function CountLines(c: Counts): string
  {
    CountLine(c.pass, "Pass") + CountLine(c.fail, "Fail") + CountLine(c.error, "Error") +
    CountLine(c.signal, "Signal") + CountLine(c.txError, "TxError") + CountLine(c.txFail, "TxFail") +
    CountLine(c.rxError, "RxError") + CountLine(c.rxTimeout, "RxTimeout") + CountLine(c.rxFail, "RxFail")
  }

  function VerdictLine(v: Verdict, testName: string, descr: Option<string>): string
  {
    match v
    case Failed =>
      if descr.None? then testName + " TEST HAS FAILED\n"
      else testName + " TEST HAS FAILED FOR " + descr.value + "\n"
    case Passed => testName + " TEST HAS PASSED\n"
    case DidNotRun => testName + " TEST DID NOT RUN CORRECTLY\n"
  }

  /**
   * What a logging call prints: the verdict line as it is first printed
   * (empty unless completing), the upper-cased log entry, and whether the
   * entry also goes to the failure log.
   */
  datatype Report = Report(passFail: string, log: string, failureLog: bool)

  /** The entry prefix: the time stamp and the MAC address, each followed by ": ". */
  function Prefix(stamp: string, mac: string): string
  {
    stamp + ": " + mac + ": "
  }

  // ---------------------------------------------------------------------
  // The results record and ftUpdateTestStatus
  // ---------------------------------------------------------------------

  /**
   * An `ftResults_t` record, updated in place through the pointer each test
   * passes around; its fifteen counters are held as one `Counts` value.
   */
  class Results {
    var counts: Counts

    constructor ()
      ensures counts == ZERO_COUNTS
    {
      counts := ZERO_COUNTS;
    }

    /** `memset(&ftResults, 0, sizeof(ftResults))` before each iteration of a test. */
    method Reset()
      modifies this
      ensures counts == ZERO_COUNTS
    {
      counts := ZERO_COUNTS;
    }

    /** `ftres->cnt++` for counter `k`. */
    method Increment(k: Counter)
      modifies this
      ensures counts == Bump(old(counts), k)
    {
      counts := Bump(counts, k);
    }
  }

  /**
   * The report `ftUpdateTestStatus` produces for token `t`, given the caller's
   * record `c` before the call and the global interrupt count.
   */
  function ReportOf(t: FtRet, c: Counts, interrupts: u32, testName: string,
                    descr: Option<string>, stamp: string, mac: string): Option<Report>
  {
    var pre := Prefix(stamp, mac);
    match t
    case FtStart => Some(Report("", Upper(pre + "STARTING "), false))
    case FtInformation => Some(Report("", Upper(pre), false))
    case FtComplete =>
      var v := VerdictOf(c);
      var head := pre + VerdictLine(v, testName, descr);
      var tail := CountLines(c) + (if interrupts != 0 then INDENT + "Test Interrupted\n" else "");
      Some(Report(head, Upper(head + tail), v != Passed))
    case _ => None
  }

  /**
   * `ftUpdateTestStatus(ftres, ret, descr)`: counts `ret` in the caller's
   * record `ftres` or in the file-global record `global` (the two may be
   * the same record), returns `ret` unchanged, and reports as `ReportOf`
   * says. The time stamp and MAC address are read from the system and are
   * parameters here.
   */
  method UpdateTestStatus(ftres: Results, global: Results, ret: FtRet, testName: string,
                          descr: Option<string>, stamp: string, mac: string)
    returns (r: FtRet, report: Option<Report>)
    modifies ftres, global
    ensures r == ret
    ensures ftres != global ==>
      ftres.counts == BumpOpt(old(ftres.counts), RecordCounter(ret)) &&
      global.counts == BumpOpt(old(global.counts), GlobalCounter(ret))
    ensures ftres == global ==>
      ftres.counts == BumpOpt(BumpOpt(old(ftres.counts), RecordCounter(ret)), GlobalCounter(ret))
    ensures report == ReportOf(ret, old(ftres.counts), old(global.counts.interrupt),
                               testName, descr, stamp, mac)
  {
    var before := ftres.counts;
    var interrupts := global.counts.interrupt;
    match ret {
      case FtStart => global.Increment(StartCnt);
      case FtComplete => ftres.Increment(CompleteCnt);
      case FtPass => ftres.Increment(PassCnt);
      case FtFail => ftres.Increment(FailCnt);
      case FtError => ftres.Increment(ErrorCnt);
      case FtSignal => ftres.Increment(SignalCnt);
      case FtTxError => ftres.Increment(TxErrorCnt);
      case FtTxTimeout => ftres.Increment(TxFailCnt);
      case FtTxFail => ftres.Increment(TxFailCnt);
      case FtRxError => ftres.Increment(RxErrorCnt);
      case FtRxTimeout => ftres.Increment(RxTimeoutCnt);
      case FtRxFail => ftres.Increment(RxFailCnt);
      case FtNewline => ftres.Increment(NewlineCnt);
      case FtInformation => ftres.Increment(InformationCnt);
      case FtInterrupt => global.Increment(InterruptCnt);
      case FtUnimplemented => global.Increment(UnimplementedCnt);
    }
    report := ReportOf(ret, before, interrupts, testName, descr, stamp, mac);
    r := ret;
  }

  /** Per-attempt tokens are counted silently: nothing is printed or logged. */
  lemma AttemptsAreSilent(t: FtRet, c: Counts, interrupts: u32, testName: string,
                          descr: Option<string>, stamp: string, mac: string)
    requires IsAttempt(t)
    ensures ReportOf(t, c, interrupts, testName, descr, stamp, mac).None?
  {
  }

  /**
   * Completing a test logs an entry, and the entry also goes to the failure
   * log exactly when some failure counter is non-zero or no pass was counted.
   */
  lemma CompleteReportsVerdict(c: Counts, interrupts: u32, testName: string,
                               descr: Option<string>, stamp: string, mac: string)
    ensures var r := ReportOf(FtComplete, c, interrupts, testName, descr, stamp, mac);
      r.Some? &&
      (r.value.failureLog <==> (exists k :: k in FAILURE_COUNTERS && Field(c, k) != 0) || c.pass == 0)
  {
    VerdictMeaning(c);
  }
}
