/**
 * The hexadecimal memory dumps `mdmp` and `mdmp1` of `fit.c`, as the text
 * they print, and the elapsed-time subtraction of the FIT main loop.
 */
module FitDump {
  import opened FitTypes

  /** The two dump layouts: `mdmp` groups bytes by 16, `mdmp1` by 4. */
  datatype Style = Mdmp | Mdmp1

  /** Every dumped range fits the 32-bit `size_t` of the target. */
  const MAX_DUMP: nat := 0x1_0000_0000

  /** `"\n%8.8x:"`: the address line opened before every 32nd byte. */
  function AddressMark(i: nat): string
  {
    "\n" + Hex(i, 8) + ":"
  }

  /** The blank printed before byte `i`, if any. */
  function Gap(style: Style, i: nat): string
  {
    match style
    case Mdmp => if i % 16 == 0 then " " else ""
    case Mdmp1 => if i % 32 != 0 && i % 4 == 0 then " " else ""
  }

  /** `"%2.2x"` of one byte. */
  function Hex2(b: byte): (s: string)
    ensures |s| == 2
  {
    HexWidth(b as nat, 2);
    Hex(b as nat, 2)
  }

  /** What the loop prints for byte `b` at index `i`. */
  function Piece(style: Style, i: nat, b: byte): string
  {
    (if i % 32 == 0 then AddressMark(i) else "") + Gap(style, i) + Hex2(b)
  }

  /** What the loop prints for the bytes `data`, the first of them at index `i`. */
  function DumpFrom(style: Style, data: seq<byte>, i: nat): string
    decreases |data|
  {
    if data == [] then "" else Piece(style, i, data[0]) + DumpFrom(style, data[1..], i + 1)
  }

  /** The whole text of `mdmp(vp, sz, level)` or of the dump part of `mdmp1`. */
  function DumpText(style: Style, data: seq<byte>): string
  {
    DumpFrom(style, data, 0) + "\n"
  }

  /** The heading `mdmp1` prints first: `"\nLine %lu of File %s: %s\n%s\n"`. */
  function Mdmp1Heading(fp: string, fn: string, ln: nat, us: string): string
  {
    "\nLine " + Decimal(ln) + " of File " + fp + ": " + fn + "\n" + us + "\n"
  }

  lemma DumpFromStep(style: Style, data: seq<byte>, i: nat)
    requires i < |data|
    ensures DumpFrom(style, data[i..], i) == Piece(style, i, data[i]) + DumpFrom(style, data[i + 1..], i + 1)
  {
    assert data[i..][1..] == data[i + 1..];
  }

  /** The prints of one iteration of `mdmp`'s loop, for byte `b` at index `i`. */
  method MdmpPiece(i: nat, b: byte) returns (p: string)
    ensures p == Piece(Mdmp, i, b)
  {
    p := "";
    if i % 32 == 0 {
      p := p + AddressMark(i);
    }
    if i % 16 == 0 {
      p := p + " ";
    }
    p := p + Hex2(b);
  }

  /** `mdmp(vp, sz, printLevel)` over the bytes `data`: the text it prints. */
  method MdmpPrint(data: seq<byte>) returns (out: string)
    ensures out == DumpText(Mdmp, data)
  {
    out := "";
    var i := 0;
    while i < |data|
      invariant 0 <= i <= |data|
      invariant out + DumpFrom(Mdmp, data[i..], i) == DumpFrom(Mdmp, data, 0)
    {
      DumpFromStep(Mdmp, data, i);
      var p := MdmpPiece(i, data[i]);
      out := out + p;
      i := i + 1;
    }
    assert data[i..] == [];
    out := out + "\n";
  }

  /** The prints of one iteration of `mdmp1`'s loop, for byte `b` at index `i`. */
  method Mdmp1Piece(i: nat, b: byte) returns (p: string)
    ensures p == Piece(Mdmp1, i, b)
  {
    p := "";
    if i % 32 == 0 {
      p := p + AddressMark(i);
    } else if i % 4 == 0 {
      p := p + " ";
    }
    p := p + Hex2(b);
  }

  /** `mdmp1(vp, sz, printLevel, fp, fn, ln, us)`: the heading, then the dump grouped by 4. */
  method Mdmp1Print(data: seq<byte>, fp: string, fn: string, ln: nat, us: string) returns (out: string)
    ensures out == Mdmp1Heading(fp, fn, ln, us) + DumpText(Mdmp1, data)
  {
    out := Mdmp1Heading(fp, fn, ln, us);
    ghost var heading := out;
    var i := 0;
    while i < |data|
      invariant 0 <= i <= |data|
      invariant out + DumpFrom(Mdmp1, data[i..], i) == heading + DumpFrom(Mdmp1, data, 0)
    {
      DumpFromStep(Mdmp1, data, i);
      var p := Mdmp1Piece(i, data[i]);
      out := out + p;
      i := i + 1;
    }
    assert data[i..] == [];
    assert out == heading + DumpFrom(Mdmp1, data, 0);
    out := out + "\n";
    assert out == heading + (DumpFrom(Mdmp1, data, 0) + "\n");
  }

  // ---------------------------------------------------------------------
  // Reading a dump back
  // ---------------------------------------------------------------------

  function HexPairValue(a: char, b: char): (v: byte)
    requires IsHexChar(a) && IsHexChar(b)
  {
    (16 * HexCharValue(a) + HexCharValue(b)) as byte
  }

  /**
   * The bytes a dump body shows, checking every address line against the
   * index of the byte it opens; `None` for text no dump produces.
   */
  function UndumpFrom(style: Style, s: string, i: nat): Option<seq<byte>>
    decreases |s|
  {
    if s == "\n" then Some([])
    else
      var mark := if i % 32 == 0 then AddressMark(i) else "";
      var gap := Gap(style, i);
      var k := |mark| + |gap|;
      if |s| >= k + 2 && s[..|mark|] == mark && s[|mark|..k] == gap &&
         IsHexChar(s[k]) && IsHexChar(s[k + 1])
      then
        var rest := UndumpFrom(style, s[k + 2..], i + 1);
        if rest.Some? then Some([HexPairValue(s[k], s[k + 1])] + rest.value) else None
      else None
  }

  function Undump(style: Style, s: string): Option<seq<byte>>
  {
    UndumpFrom(style, s, 0)
  }

  lemma Hex2RoundTrip(b: byte)
    ensures IsHexChar(Hex2(b)[0]) && IsHexChar(Hex2(b)[1])
    ensures HexPairValue(Hex2(b)[0], Hex2(b)[1]) == b
  {
    var s := Hex2(b);
    HexRoundTrip(b as nat, 2);
    assert s[..1] == [s[0]];
    assert HexValue(s) == 16 * HexValue(s[..1]) + HexCharValue(s[1]);
    assert s[..1][..0] == [];
  }

  /** Reading back one piece gives its byte, then reading goes on at the next index. */
  lemma UndumpPiece(style: Style, i: nat, b: byte, tail: string)
    requires i < MAX_DUMP
    ensures UndumpFrom(style, Piece(style, i, b) + tail, i) ==
      var rest := UndumpFrom(style, tail, i + 1);
      if rest.Some? then Some([b] + rest.value) else None
  {
    var mark := if i % 32 == 0 then AddressMark(i) else "";
    var gap := Gap(style, i);
    var h := Hex2(b);
    var s := Piece(style, i, b) + tail;
    var k := |mark| + |gap|;
    assert |s| >= k + 2 && s[..|mark|] == mark && s[|mark|..k] == gap &&
           s[k] == h[0] && s[k + 1] == h[1] && s[k + 2..] == tail by {
      assert s == mark + gap + h + tail;
    }
    assert s != "\n" by {
      if i % 32 == 0 {
        HexWidth(i, 8);
      }
    }
    Hex2RoundTrip(b);
  }

  lemma DumpSplit(style: Style, data: seq<byte>, i: nat)
    requires data != []
    ensures DumpFrom(style, data, i) + "\n" == Piece(style, i, data[0]) + (DumpFrom(style, data[1..], i + 1) + "\n")
  {
  }

  lemma {:induction false} UndumpDumpFrom(style: Style, data: seq<byte>, i: nat)
    requires i + |data| <= MAX_DUMP
    ensures UndumpFrom(style, DumpFrom(style, data, i) + "\n", i) == Some(data)
    decreases |data|
  {
    if data == [] {
      assert DumpFrom(style, data, i) + "\n" == "\n";
    } else {
      UndumpStep(style, data, i);
      UndumpDumpFrom(style, data[1..], i + 1);
      assert [data[0]] + data[1..] == data;
    }
  }

  lemma UndumpStep(style: Style, data: seq<byte>, i: nat)
    requires data != [] && i < MAX_DUMP
    ensures UndumpFrom(style, DumpFrom(style, data, i) + "\n", i) ==
      var rest := UndumpFrom(style, DumpFrom(style, data[1..], i + 1) + "\n", i + 1);
      if rest.Some? then Some([data[0]] + rest.value) else None
  {
    DumpSplit(style, data, i);
    UndumpPiece(style, i, data[0], DumpFrom(style, data[1..], i + 1) + "\n");
  }

  /** A dump shows every byte of the range, in order: reading it back gives the bytes. */
  lemma UndumpDump(style: Style, data: seq<byte>)
    requires |data| <= MAX_DUMP
    ensures Undump(style, DumpText(style, data)) == Some(data)
  {
    UndumpDumpFrom(style, data, 0);
  }

  /** The dump of an empty range is a lone newline. */
  lemma EmptyDump(style: Style)
    ensures DumpText(style, []) == "\n"
  {
  }

  // ---------------------------------------------------------------------
  // Elapsed time
  // ---------------------------------------------------------------------

  const NSEC_PER_SEC: int := 1000000000

  datatype Timespec = Timespec(sec: int, nsec: int)

  predicate Normalised(t: Timespec)
  {
    0 <= t.nsec < NSEC_PER_SEC
  }

  function Nanoseconds(t: Timespec): int
  {
    t.sec * NSEC_PER_SEC + t.nsec
  }

  /** `end_tm - start_tm` field by field, borrowing a second when the nanoseconds go negative. */
  function Elapsed(endTm: Timespec, startTm: Timespec): (d: Timespec)
    ensures Nanoseconds(d) == Nanoseconds(endTm) - Nanoseconds(startTm)
    ensures Normalised(endTm) && Normalised(startTm) ==> Normalised(d)
  {
    var sec := endTm.sec - startTm.sec;
    var nsec := endTm.nsec - startTm.nsec;
    if nsec < 0 then Timespec(sec - 1, nsec + NSEC_PER_SEC) else Timespec(sec, nsec)
  }
}
