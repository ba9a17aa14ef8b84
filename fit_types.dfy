/**
 * Shared vocabulary of the field-inspection test (FIT) suite: the octet type,
 * the outcome tokens every test reports through, an optional value, and the
 * decimal and hexadecimal renderings the tests print and emit to devices.
 */
module FitTypes {

  /** An 8-bit unsigned value (u_int8). */
  newtype byte = x: int | 0 <= x < 256

  /** A 16-bit unsigned value (u_int16). */
  newtype u16 = x: int | 0 <= x < 0x1_0000

  /** A 32-bit unsigned value (u_int32). */
  newtype u32 = x: int | 0 <= x < 0x1_0000_0000

  /** `x++` on a u_int32: one more, wrapping to 0 after the largest value. */
  function Inc32(x: u32): (r: u32)
    ensures x < 0xffff_ffff ==> r as int == x as int + 1
    ensures x == 0xffff_ffff ==> r == 0
  {
    if x == 0xffff_ffff then 0 else x + 1
  }

  /** Outcome tokens, in the order of the `ftRet_t` enumeration. */
  datatype FtRet =
    | FtStart | FtComplete | FtPass | FtFail | FtError | FtSignal
    | FtTxTimeout | FtTxError | FtTxFail | FtRxError | FtRxTimeout | FtRxFail
    | FtNewline | FtInformation | FtUnimplemented | FtInterrupt

  datatype Option<T> = None | Some(value: T)

  const TWO_TO_16: nat := 0x1_0000
  const TWO_TO_32: nat := 0x1_0000_0000

  /** Truncation to 16 bits, as a store into a u_int16 does. */
  function U16(x: int): (r: nat)
    ensures r < TWO_TO_16
    ensures 0 <= x < TWO_TO_16 ==> r == x
    ensures (r - x) % TWO_TO_16 == 0
  {
    x % TWO_TO_16
  }

  /** Truncation to 32 bits, as a store into a u_int32 does. */
  function U32(x: int): (r: nat)
    ensures r < TWO_TO_32
    ensures 0 <= x < TWO_TO_32 ==> r == x
    ensures (r - x) % TWO_TO_32 == 0
  {
    x % TWO_TO_32
  }

  /** What a `read` of a device asking for `rem` bytes takes of the bytes the device has ready. */
  function Take(ready: seq<byte>, rem: nat): (chunk: seq<byte>)
    ensures |chunk| <= rem && |chunk| <= |ready| && chunk == ready[..|chunk|]
    ensures |chunk| < rem ==> chunk == ready
  {
    if |ready| <= rem then ready else ready[..rem]
  }

  /** The truncation of a non-negative integer to its low 8 bits. */
  function LowByte(x: int): (b: byte)
    ensures 0 <= x < 256 ==> b as int == x
    ensures (b as int - x) % 256 == 0
  {
    (x % 256) as byte
  }

  // ---------------------------------------------------------------------
  // Division facts
  // ---------------------------------------------------------------------

  lemma MulAtLeast(k: int, a: int)
    requires 0 < k && 1 <= a
    ensures k * a >= k
  {
  }

  /** Quotient and remainder are the only `q`, `r` with `n == k * q + r` and `0 <= r < k`. */
  lemma DivModUnique(n: int, k: int, q: int, r: int)
    requires 0 < k && 0 <= r < k && n == k * q + r
    ensures n / k == q && n % k == r
  {
    var q', r' := n / k, n % k;
    assert k * (q - q') == r' - r;
    if q > q' {
      MulAtLeast(k, q - q');
    } else if q < q' {
      assert k * (q' - q) == r - r';
      MulAtLeast(k, q' - q);
    }
  }

  /** Reducing modulo `10 k` first does not change the remainder modulo `k`. */
  lemma ModMod(n: int, k: int)
    requires 0 <= n && 0 < k
    ensures n % (10 * k) % k == n % k
  {
    var q := n / (10 * k);
    var m := n % (10 * k);
    assert n == k * (10 * q) + m;
    var mq, mr := m / k, m % k;
    assert m == k * mq + mr;
    assert n == k * (10 * q + mq) + mr;
    DivModUnique(n, k, 10 * q + mq, mr);
  }

  // ---------------------------------------------------------------------
  // Memory order of multi-byte values
  // ---------------------------------------------------------------------

  /** The byte order of the target, a parameter of every in-memory layout. */
  datatype ByteOrder = BigEndian | LittleEndian

  /** The two bytes of a u_int16 in memory order. */
  function Bytes16(x: u16, order: ByteOrder): (r: seq<byte>)
    ensures |r| == 2
  {
    var hi := (x as int / 256) as byte;
    var lo := (x as int % 256) as byte;
    if order == BigEndian then [hi, lo] else [lo, hi]
  }

  /** Two different values never share their memory bytes. */
  lemma Bytes16Injective(x: u16, y: u16, order: ByteOrder)
    requires Bytes16(x, order) == Bytes16(y, order)
    ensures x == y
  {
    var bx, b2 := Bytes16(x, order), Bytes16(y, order);
    assert x as int == x as int / 256 * 256 + x as int % 256;
    assert y as int == y as int / 256 * 256 + y as int % 256;
    if order == BigEndian {
      assert bx[0] == b2[0] && bx[1] == b2[1];
    } else {
      assert bx[1] == b2[1] && bx[0] == b2[0];
    }
  }

  /** The four bytes of a u_int32 in memory order. */
  function Bytes32(x: bv32, order: ByteOrder): (r: seq<byte>)
    ensures |r| == 4
  {
    var b3 := (x >> 24) as int as byte;
    var b2 := ((x >> 16) & 0xff) as int as byte;
    var b1 := ((x >> 8) & 0xff) as int as byte;
    var b0 := (x & 0xff) as int as byte;
    if order == BigEndian then [b3, b2, b1, b0] else [b0, b1, b2, b3]
  }

  // ---------------------------------------------------------------------
  // Bits
  // ---------------------------------------------------------------------

  /** Bit `i` of the value `p`. */
  predicate BitSet(p: nat, i: nat)
  {
    if i == 0 then p % 2 == 1 else BitSet(p / 2, i - 1)
  }

  lemma {:induction false} BitSetZero(i: nat)
    ensures !BitSet(0, i)
  {
    if i > 0 {
      BitSetZero(i - 1);
    }
  }

  /** `1 << i`. */
  function Pow2(i: nat): (r: nat)
    ensures r >= 1
  {
    if i == 0 then 1 else 2 * Pow2(i - 1)
  }

  /** `(1 << i) - 1` has exactly the bits below `i` set. */
  lemma {:induction false} LowMaskBits(i: nat, j: nat)
    ensures BitSet(Pow2(i) - 1, j) <==> j < i
  {
    if i == 0 {
      BitSetZero(j);
    } else if j > 0 {
      assert (Pow2(i) - 1) / 2 == Pow2(i - 1) - 1;
      LowMaskBits(i - 1, j - 1);
    }
  }

  // ---------------------------------------------------------------------
  // Decimal rendering (%u, %d) and its inverse
  // ---------------------------------------------------------------------

  predicate IsDigit(c: char) { '0' <= c <= '9' }

  function DigitChar(d: nat): (c: char)
    requires d < 10
    ensures IsDigit(c) && (c as int) - ('0' as int) == d
  {
    (d + '0' as int) as char
  }

  /** The decimal digits of `n`, most significant first, without leading zeros. */
  function Decimal(n: nat): (s: string)
    ensures |s| >= 1
    ensures forall i :: 0 <= i < |s| ==> IsDigit(s[i])
    ensures n < 10 <==> |s| == 1
    ensures |s| > 1 ==> s[0] != '0'
  {
    if n < 10 then [DigitChar(n)] else Decimal(n / 10) + [DigitChar(n % 10)]
  }

  /** The value of a string of decimal digits. */
  function DecimalValue(s: string): nat
    requires forall i :: 0 <= i < |s| ==> IsDigit(s[i])
  {
    if s == [] then 0
    else 10 * DecimalValue(s[..|s| - 1]) + DigitValue(s[|s| - 1])
  }

  function DigitValue(c: char): (d: nat)
    requires IsDigit(c)
    ensures d < 10
  {
    (c as int) - ('0' as int)
  }

  lemma {:induction false} DecimalRoundTrip(n: nat)
    ensures DecimalValue(Decimal(n)) == n
  {
    if n >= 10 {
      var s := Decimal(n);
      assert s[..|s| - 1] == Decimal(n / 10);
      DecimalRoundTrip(n / 10);
    }
  }

  /** Decimal rendering is injective: two numbers print alike only if equal. */
  lemma DecimalInjective(m: nat, n: nat)
    requires Decimal(m) == Decimal(n)
    ensures m == n
  {
    DecimalRoundTrip(m);
    DecimalRoundTrip(n);
  }

  /** `%d` of a signed value. */
  function SignedDecimal(x: int): (s: string)
    ensures x >= 0 ==> s == Decimal(x)
    ensures x < 0 ==> s == "-" + Decimal(-x)
  {
    if x >= 0 then Decimal(x) else "-" + Decimal(-x)
  }

  // ---------------------------------------------------------------------
  // Hexadecimal rendering (%N.Nx, lower case) and its inverse
  // ---------------------------------------------------------------------

  function HexChar(d: nat): (c: char)
    requires d < 16
  {
    if d < 10 then (d + '0' as int) as char else (d - 10 + 'a' as int) as char
  }

  predicate IsHexChar(c: char) { '0' <= c <= '9' || 'a' <= c <= 'f' }

  function HexCharValue(c: char): (d: nat)
    requires IsHexChar(c)
    ensures d < 16
  {
    if '0' <= c <= '9' then (c as int) - ('0' as int) else (c as int) - ('a' as int) + 10
  }

  lemma HexCharRoundTrip(d: nat)
    requires d < 16
    ensures IsHexChar(HexChar(d)) && HexCharValue(HexChar(d)) == d
  {
  }

  /**
   * The lower-case hexadecimal digits of `n`, zero-padded on the left to at
   * least `width` digits, as `%width.widthx` prints them.
   */
  function Hex(n: nat, width: nat): (s: string)
    ensures |s| >= width && |s| >= 1
    ensures forall i :: 0 <= i < |s| ==> IsHexChar(s[i])
    decreases n + width
  {
    var low := [HexChar(n % 16)];
    if n < 16 && width <= 1 then low
    else Hex(n / 16, if width == 0 then 0 else width - 1) + low
  }

  /** The value of a string of lower-case hexadecimal digits. */
  function HexValue(s: string): nat
    requires forall i :: 0 <= i < |s| ==> IsHexChar(s[i])
  {
    if s == [] then 0 else 16 * HexValue(s[..|s| - 1]) + HexCharValue(s[|s| - 1])
  }

  lemma {:induction false} HexRoundTrip(n: nat, width: nat)
    ensures HexValue(Hex(n, width)) == n
    decreases n + width
  {
    var s := Hex(n, width);
    HexCharRoundTrip(n % 16);
    if !(n < 16 && width <= 1) {
      assert s[..|s| - 1] == Hex(n / 16, if width == 0 then 0 else width - 1);
      HexRoundTrip(n / 16, if width == 0 then 0 else width - 1);
    }
  }

  /** Below `16^width` the rendering is exactly `width` digits wide. */
  lemma {:induction false} HexWidth(n: nat, width: nat)
    requires width >= 1 && n < Pow16(width)
    ensures |Hex(n, width)| == width
    decreases width
  {
    if width > 1 {
      HexWidth(n / 16, width - 1);
    }
  }

  function Pow16(n: nat): (r: nat)
    ensures r >= 1
  {
    if n == 0 then 1 else 16 * Pow16(n - 1)
  }
}
