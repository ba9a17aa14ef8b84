/**
 * Constants and pure helpers of the serial-port loopback tests: the port
 * states and protocols, the baud-rate tables, the translation between
 * termios speed codes and numeric rates, the index of a rate in the
 * synchronous controller's rate table, and the receive timeout.
 */
module SerialDefs {
  import opened FitTypes

  /** Largest frame the tests transfer (`MAX_TRANSFER`). */
  const MAX_TRANSFER: nat := 1024

  /** EAGAIN failures of a select/read the receivers of the threaded test wait out (`RETRY_CNT`). */
  const RETRY_CNT: nat := 2

  /** Polls (of 10 ms) the receiver waits for its transmitter to be ready (`MAX_WAIT_FOR_TX`). */
  const MAX_WAIT_FOR_TX: nat := 500

  const MICROSECONDS_IN_SEC: int := 1000000

  /** Bits on the line per byte, used for both protocols (`ASYNC_BITS_PER_BYTE`). */
  const ASYNC_BITS_PER_BYTE: int := 10

  /** Default timeout multiplier (`tmoMultiplier`, changed with `-y`). */
  const DEFAULT_TMO_MULTIPLIER: int := 1000

  /** State of a test's reader or writer thread (`spState_t`). */
  datatype SpState =
    | WaitingForMon | WaitingForRx | WaitingForConcurrent | Transmitting
    | TransmitComplete | Receiving | ReceiveComplete | Scheduled | Unscheduled

  /** Line protocol of a test (`spProt_t`). */
  datatype Protocol = ProtAsync | ProtSync | ProtNone

  // ---------------------------------------------------------------------
  // termios speed codes (the Linux values of <termios.h>)
  // ---------------------------------------------------------------------

  const B1200: u32 := 9
  const B2400: u32 := 11
  const B4800: u32 := 12
  const B9600: u32 := 13
  const B19200: u32 := 14
  const B38400: u32 := 15
  const B57600: u32 := 0x1001
  const B115200: u32 := 0x1002

  /** The eight asynchronous speed codes, slowest first. */
  const SPEED_CODES: seq<u32> := [B1200, B2400, B4800, B9600, B19200, B38400, B57600, B115200]

  /** The numeric rates of `SPEED_CODES`, position by position. */
  const STANDARD_RATES: seq<u32> := [1200, 2400, 4800, 9600, 19200, 38400, 57600, 115200]

  /**
   * `mapBaudRate`: the numeric rate of an asynchronous speed code; any other
   * value is already a (synchronous) numeric rate and passes through.
   */
  function MapBaudRate(br: u32): (r: u32)
    ensures forall i :: 0 <= i < |SPEED_CODES| && br == SPEED_CODES[i] ==> r == STANDARD_RATES[i]
    ensures br !in SPEED_CODES ==> r == br
  {
    if br == B1200 then 1200
    else if br == B2400 then 2400
    else if br == B4800 then 4800
    else if br == B9600 then 9600
    else if br == B19200 then 19200
    else if br == B38400 then 38400
    else if br == B57600 then 57600
    else if br == B115200 then 115200
    else br
  }

  /** No speed code is itself one of the standard rates, so the two kinds of value never collide. */
  lemma CodesAreNotRates()
    ensures forall c :: c in SPEED_CODES ==> c !in STANDARD_RATES
    ensures forall i, j :: 0 <= i < j < |STANDARD_RATES| ==> STANDARD_RATES[i] < STANDARD_RATES[j]
  {
  }

  // ---------------------------------------------------------------------
  // Baud-rate tables of the ports
  // ---------------------------------------------------------------------

  /** Rates of the asynchronous ports sp1, sp2, sp3, sp4, sp6 and sp8 (speed codes). */
  const ASYNC_RATES: seq<u32> := SPEED_CODES

  /** Rates of the synchronous ports sp1s, sp2s and sp8s. */
  const SYNC_RATES: seq<u32> := [19200, 38400, 57600, 76800, 153600]

  /** Rates of the synchronous ports sp3s and sp5s, which only run fast. */
  const SYNC_FAST_RATES: seq<u32> := [153600, 614400]

  /** The rate every synchronous port can run, shared by sp3s/sp5s and the others. */
  const SHARED_SYNC_RATE: u32 := 153600

  /** The rate table of a port, by device name; empty for a name the test does not know. */
  function RateTable(dev: string): (t: seq<u32>)
    ensures dev == "sp3s" || dev == "sp5s" ==> t == SYNC_FAST_RATES
    ensures dev == "sp1s" || dev == "sp2s" || dev == "sp8s" ==> t == SYNC_RATES
    ensures forall i :: 0 <= i < |t| ==> t[i] != 0
  {
    if dev in {"sp1", "sp2", "sp3", "sp4", "sp6", "sp8"} then ASYNC_RATES
    else if dev in {"sp1s", "sp2s", "sp8s"} then SYNC_RATES
    else if dev in {"sp3s", "sp5s"} then SYNC_FAST_RATES
    else []
  }

  /** The rates printed for a port's table are the standard numeric rates for async ports and the table itself for sync ports. */
  lemma PrintedRates(dev: string)
    ensures dev == "sp1" ==> forall i :: 0 <= i < |RateTable(dev)| ==> MapBaudRate(RateTable(dev)[i]) == STANDARD_RATES[i]
    ensures dev == "sp3s" ==> forall i :: 0 <= i < |RateTable(dev)| ==> MapBaudRate(RateTable(dev)[i]) == SYNC_FAST_RATES[i]
    ensures dev == "sp1s" ==> forall i :: 0 <= i < |RateTable(dev)| ==> MapBaudRate(RateTable(dev)[i]) == SYNC_RATES[i]
  {
  }

  // ---------------------------------------------------------------------
  // Synchronous controller rate index
  // ---------------------------------------------------------------------

  /** The rates the synchronous controller accepts, by index (`ATC_B`). */
  const ATC_B: seq<u32> := [1200, 2400, 4800, 9600, 19200, 38400, 57600, 76800, 115200, 153600, 614400]

  /**
   * `mapsdlcbaud`: the position of `rate` in `ATC_B`, or -1 when the
   * controller does not support it.
   */
  method MapSdlcBaud(rate: u32) returns (cnt: int)
    ensures cnt == -1 <==> rate !in ATC_B
    ensures cnt != -1 ==> 0 <= cnt < |ATC_B| && ATC_B[cnt] == rate
  {
    cnt := 0;
    while cnt < 11
      invariant 0 <= cnt <= 11
      invariant forall j :: 0 <= j < cnt ==> ATC_B[j] != rate
    {
      if rate == ATC_B[cnt] {
        return;
      }
      cnt := cnt + 1;
    }
    cnt := -1;
  }

  /** Every rate of the synchronous tables has a controller index. */
  lemma SyncRatesSupported()
    ensures forall r :: r in SYNC_RATES ==> r in ATC_B
    ensures forall r :: r in SYNC_FAST_RATES ==> r in ATC_B
  {
  }

  // ---------------------------------------------------------------------
  // C integer arithmetic
  // ---------------------------------------------------------------------

  const INT32_MIN: int := -0x8000_0000
  const INT32_MAX: int := 0x7fff_ffff

  /** A value stored into an int32: two's-complement wrap-around. */
  function Int32(x: int): (r: int)
    ensures INT32_MIN <= r <= INT32_MAX
    ensures INT32_MIN <= x <= INT32_MAX ==> r == x
    ensures (r - x) % 0x1_0000_0000 == 0
  {
    (x - INT32_MIN) % 0x1_0000_0000 + INT32_MIN
  }

  /** C's `/` on a positive divisor: the quotient truncated toward zero. */
  function Quot(a: int, b: int): (q: int)
    requires b > 0
    ensures a >= 0 ==> q == a / b
    ensures a < 0 ==> q == -((-a) / b)
  {
    if a >= 0 then a / b else -((-a) / b)
  }

  /** C's `%` on a positive divisor: the remainder takes the sign of the dividend. */
  function Rem(a: int, b: int): (r: int)
    requires b > 0
    ensures Quot(a, b) * b + r == a
    ensures a >= 0 ==> 0 <= r < b
    ensures a < 0 ==> -b < r <= 0
  {
    a - Quot(a, b) * b
  }

  // ---------------------------------------------------------------------
  // Receive timeout
  // ---------------------------------------------------------------------

  /** A `struct timeval`. */
  datatype TimeVal = TimeVal(sec: int, usec: int)

  /**
   * `calculateTimeout` as the program computes it: the product
   * `numBytes * 10 * 1000000` and the product with the multiplier are
   * int32 arithmetic and wrap around.
   */
  function TimeoutInt32(numBytes: nat, bitsPerSec: int, mult: int): (t: TimeVal)
    requires 0 < bitsPerSec <= INT32_MAX && numBytes <= INT32_MAX
    ensures INT32_MIN <= t.sec * MICROSECONDS_IN_SEC + t.usec <= INT32_MAX
  {
    var product := Int32(Int32(numBytes * ASYNC_BITS_PER_BYTE) * MICROSECONDS_IN_SEC);
    var usecs := Int32(Quot(product, bitsPerSec) * mult);
    TimeVal(Quot(usecs, MICROSECONDS_IN_SEC), Rem(usecs, MICROSECONDS_IN_SEC))
  }

  /** The microseconds a frame of `numBytes` needs at `bitsPerSec`, times `mult`. */
  function TimeoutMicros(numBytes: nat, bitsPerSec: int, mult: int): int
    requires bitsPerSec > 0
  {
    (numBytes * ASYNC_BITS_PER_BYTE * MICROSECONDS_IN_SEC / bitsPerSec) * mult
  }

  /**
   * `calculateTimeout` without overflow: the frame time split into whole
   * seconds and the microseconds left over.
   */
  function CalculateTimeout(numBytes: nat, bitsPerSec: int, mult: nat): (t: TimeVal)
    requires bitsPerSec > 0
    ensures t.sec * MICROSECONDS_IN_SEC + t.usec == TimeoutMicros(numBytes, bitsPerSec, mult)
    ensures t.sec >= 0 && 0 <= t.usec < MICROSECONDS_IN_SEC
  {
    var usecs := TimeoutMicros(numBytes, bitsPerSec, mult);
    TimeVal(usecs / MICROSECONDS_IN_SEC, usecs % MICROSECONDS_IN_SEC)
  }

  lemma MulLe(a: int, b: int, c: int)
    requires 0 <= a && b <= c
    ensures a * b <= a * c
  {
  }

  /** A quotient by a divisor of at least `lo`, multiplied back by `lo`, stays within the dividend. */
  lemma QuotientBound(x: nat, b: int, lo: nat)
    requires 0 < lo <= b
    ensures (x / b) * lo <= x
  {
    var q := x / b;
    assert q * b + x % b == x;
    MulLe(q, lo, b);
  }

  /** The product `numBytes * 10 * 1000000` fits an int32 for frames of at most 214 bytes. */
  lemma ProductFitsInt32(numBytes: nat)
    requires numBytes <= 214
    ensures Int32(Int32(numBytes * ASYNC_BITS_PER_BYTE) * MICROSECONDS_IN_SEC) == numBytes * 10000000
    ensures numBytes * 10000000 <= 2140000000
  {
    assert Int32(numBytes * ASYNC_BITS_PER_BYTE) == numBytes * 10;
    assert (numBytes * 10) * MICROSECONDS_IN_SEC == numBytes * 10000000;
  }

  /** The frame time in microseconds is at most 1783333 at 1200 bit/s or faster. */
  lemma FrameMicrosBound(product: nat, bitsPerSec: int)
    requires product <= 2140000000 && 1200 <= bitsPerSec
    ensures 0 <= product / bitsPerSec <= 1783333
  {
    QuotientBound(product, bitsPerSec, 1200);
  }

  /** The frame time times a multiplier of at most 1000 stays below `INT32_MAX`. */
  lemma ScaledMicrosBound(product: nat, bitsPerSec: int, mult: nat)
    requires product <= 2140000000 && 1200 <= bitsPerSec && mult <= 1000
    ensures 0 <= (product / bitsPerSec) * mult <= 1783333000
  {
    FrameMicrosBound(product, bitsPerSec);
    MulLe(product / bitsPerSec, mult, 1000);
  }

  /** The int32 microsecond count, for frames of at most 214 bytes. */
  lemma MicrosFitInt32(numBytes: nat, bitsPerSec: int, mult: nat)
    requires numBytes <= 214 && 1200 <= bitsPerSec <= INT32_MAX && mult <= 1000
    ensures Int32(Quot(Int32(Int32(numBytes * ASYNC_BITS_PER_BYTE) * MICROSECONDS_IN_SEC), bitsPerSec) * mult)
            == TimeoutMicros(numBytes, bitsPerSec, mult)
  {
    ProductFitsInt32(numBytes);
    ScaledMicrosBound(numBytes * 10000000, bitsPerSec, mult);
  }

  /**
   * For frames of at most 214 bytes, at any rate of at least 1200 bit/s and
   * a multiplier of at most 1000, the int32 computation does not overflow
   * and agrees with the exact one.
   */
  lemma TimeoutExactUpTo214(numBytes: nat, bitsPerSec: int, mult: nat)
    requires numBytes <= 214 && 1200 <= bitsPerSec <= INT32_MAX && mult <= 1000
    ensures TimeoutInt32(numBytes, bitsPerSec, mult) == CalculateTimeout(numBytes, bitsPerSec, mult)
  {
    MicrosFitInt32(numBytes, bitsPerSec, mult);
  }

  /**
   * At 215 bytes the first product already exceeds `INT32_MAX`: at 1200
   * bit/s with the default multiplier the timeout comes out negative,
   * where the exact one is 1791.666 seconds.
   */
  lemma TimeoutNegativeAt215()
    ensures TimeoutInt32(215, 1200, DEFAULT_TMO_MULTIPLIER) == TimeVal(-1787, -472000)
    ensures CalculateTimeout(215, 1200, DEFAULT_TMO_MULTIPLIER) == TimeVal(1791, 666000)
  {
    assert Int32(2150 * MICROSECONDS_IN_SEC) == -2144967296;
    assert Quot(-2144967296, 1200) == -1787472;
    assert Int32(-1787472 * 1000) == -1787472000;
    assert Quot(-1787472000, MICROSECONDS_IN_SEC) == -1787;
    assert TimeoutMicros(215, 1200, 1000) == 1791666000;
  }

  // ---------------------------------------------------------------------
  // Frame contents
  // ---------------------------------------------------------------------

  /** The test string of section 8.1.1 of ATC 6.24, without its terminating NUL. */
  const ATC_TEST_STRING: seq<byte> := [
    62, 84, 104, 101, 32, 113, 117, 105, 99, 107, 247, 254, 98, 114, 111, 119, 190,
    110, 95, 102, 111, 120, 32, 106, 117, 109, 112, 115, 32, 125, 111, 118, 101, 114,
    32, 116, 104, 101, 126, 124, 97, 122, 121, 32, 100, 111, 103, 63, 254]

  /**
   * The payload of a frame of `sz` bytes: every byte is `sz` truncated to
   * a byte, except that with `useAtc` the test string overlays the first
   * `MIN(sz, 49)` bytes.
   */
  function FramePattern(sz: nat, useAtc: bool): (p: seq<byte>)
    ensures |p| == sz
    ensures forall j :: 0 <= j < sz ==>
      p[j] == (if useAtc && j < |ATC_TEST_STRING| then ATC_TEST_STRING[j] else LowByte(sz))
  {
    seq(sz, j requires 0 <= j => if useAtc && j < |ATC_TEST_STRING| then ATC_TEST_STRING[j] else LowByte(sz))
  }
}
