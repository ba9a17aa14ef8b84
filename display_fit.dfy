/**
 * The front-panel display test of `displayFit.c`: the keypad decoder, the
 * classification of the display's reply to the identify request, the end
 * banner, and the special-character and full-character-set screens.
 */
module DisplayFit {
  import opened FitTypes
  import opened DisplayLib

  const CHARS_PER_LINE: nat := 40
  const MAX_SPECIAL_CHARS: nat := 8

  // ---------------------------------------------------------------------
  // Keypad
  // ---------------------------------------------------------------------

  /** `isgraph` in the C locale: the visible ASCII characters. */
  predicate IsGraph(c: char) { '!' <= c <= '~' }

  /** The keys reported as "ESC [" and a final byte, with their labels. */
  const CSI_KEYS: seq<(char, string)> := [('A', "UP"), ('B', "DOWN"), ('C', "RIGHT"), ('D', "LEFT")]

  /** The keys reported as "ESC O" and a final byte, with their labels. */
  const SS3_KEYS: seq<(char, string)> := [
    ('P', "NEXT"), ('Q', "YES"), ('R', "NO"), ('S', "ESC"), ('T', "AUX-ON"), ('U', "AUX-OFF"),
    ('V', "VSK1/F1"), ('W', "VSK2/F2"), ('X', "VSK3/F3"), ('Y', "VSK4/F4"), ('Z', "VSK5/F5"),
    ('[', "VSK6/HELP"), ('\\', "VSK7/PREV"), ('^', "VSK8"), (']', "VSK9"), ('_', "VSK10"),
    ('`', "VSK11"), ('a', "VSK12"), ('b', "VSK13"), ('c', "VSK14"), ('d', "VSK15"), ('e', "VSK16")]

  /** The label of "ESC [" `f`, and how many bytes the key takes. */
  function CsiKey(f: char): (string, int)
  {
    if f == 'A' then ("UP", 3)
    else if f == 'B' then ("DOWN", 3)
    else if f == 'C' then ("RIGHT", 3)
    else if f == 'D' then ("LEFT", 3)
    else if f == 'K' then ("DOUBLE", 5)
    else ("UNK-esc[", 3)
  }

  /** The label of "ESC O" `f`. */
  function Ss3Label(f: char): string
  {
    if f == 'P' then "NEXT"
    else if f == 'Q' then "YES"
    else if f == 'R' then "NO"
    else if f == 'S' then "ESC"
    else if f == 'T' then "AUX-ON"
    else if f == 'U' then "AUX-OFF"
    else if f == 'V' then "VSK1/F1"
    else if f == 'W' then "VSK2/F2"
    else if f == 'X' then "VSK3/F3"
    else if f == 'Y' then "VSK4/F4"
    else if f == 'Z' then "VSK5/F5"
    else if f == '[' then "VSK6/HELP"
    else if f == '\\' then "VSK7/PREV"
    else if f == '^' then "VSK8"
    else if f == ']' then "VSK9"
    else if f == '_' then "VSK10"
    else if f == '`' then "VSK11"
    else if f == 'a' then "VSK12"
    else if f == 'b' then "VSK13"
    else if f == 'c' then "VSK14"
    else if f == 'd' then "VSK15"
    else if f == 'e' then "VSK16"
    else "Unkn-escO"
  }

  /**
   * `decodeCharSequence`: the label of the key at the front of the keypad
   * buffer, and how many bytes it takes (-1 for a sequence no key sends).
   */
  function DecodeCharSequence(buffer: string): (r: (string, int))
    requires |buffer| >= 3
    ensures r.1 == 1 <==> buffer[0] == '\n' || IsGraph(buffer[0])
    ensures r.1 == 5 <==> buffer[..3] == [ESC, '[', 'K']
    ensures r.1 == -1 <==> buffer[0] != '\n' && !IsGraph(buffer[0]) && (buffer[0] != ESC || (buffer[1] != '[' && buffer[1] != 'O'))
    ensures r.1 in {1, 3, 5, -1}
    ensures buffer[0] == '\n' ==> r.0 == "ENT"
    ensures IsGraph(buffer[0]) ==> r.0 == [buffer[0]]
    ensures 1 <= |r.0| <= 9
  {
    if buffer[0] == '\n' then ("ENT", 1)
    else if IsGraph(buffer[0]) then ([buffer[0]], 1)
    else if buffer[0] == ESC then
      if buffer[1] == '[' then CsiKey(buffer[2])
      else if buffer[1] == 'O' then (Ss3Label(buffer[2]), 3)
      else ("Unkn-esc", -1)
    else ("Unknown", -1)
  }

  /** Every "ESC O" key of the table decodes to its label, taking 3 bytes. */
  lemma Ss3KeysDecode(i: nat, rest: string)
    requires i < |SS3_KEYS|
    ensures DecodeCharSequence([ESC, 'O', SS3_KEYS[i].0] + rest) == (SS3_KEYS[i].1, 3)
  {
    var b := [ESC, 'O', SS3_KEYS[i].0] + rest;
    assert b[0] == ESC && b[1] == 'O' && b[2] == SS3_KEYS[i].0;
  }

  /** Every "ESC [" arrow key of the table decodes to its label, taking 3 bytes. */
  lemma CsiKeysDecode(i: nat, rest: string)
    requires i < |CSI_KEYS|
    ensures DecodeCharSequence([ESC, '[', CSI_KEYS[i].0] + rest) == (CSI_KEYS[i].1, 3)
  {
    var b := [ESC, '[', CSI_KEYS[i].0] + rest;
    assert b[0] == ESC && b[1] == '[' && b[2] == CSI_KEYS[i].0;
  }

  /** A final byte outside the table is reported as an unknown "ESC O" key, still taking 3 bytes. */
  lemma Ss3UnknownDecode(f: char, rest: string)
    requires forall i :: 0 <= i < |SS3_KEYS| ==> SS3_KEYS[i].0 != f
    ensures DecodeCharSequence([ESC, 'O', f] + rest) == ("Unkn-escO", 3)
  {
    var b := [ESC, 'O', f] + rest;
    assert b[0] == ESC && b[1] == 'O' && b[2] == f;
    var finals := seq(|SS3_KEYS|, i requires 0 <= i < |SS3_KEYS| => SS3_KEYS[i].0);
    assert finals == "PQRSTUVWXYZ[\\^]_`abcde";
    assert f !in finals;
  }

  /** No two "ESC O" keys share a label, nor does any share one with an arrow key. */
  lemma KeyLabelsDistinct()
    ensures forall i, j :: 0 <= i < j < |SS3_KEYS| ==> SS3_KEYS[i].1 != SS3_KEYS[j].1
    ensures forall i, j :: 0 <= i < |SS3_KEYS| && 0 <= j < |CSI_KEYS| ==> SS3_KEYS[i].1 != CSI_KEYS[j].1
  {
  }

  // ---------------------------------------------------------------------
  // Screen type
  // ---------------------------------------------------------------------

  /** The display geometry the test works with: number of lines, type letter, name. */
  datatype Screen = Screen(lines: nat, kind: char, name: string)

  /** What the test assumes before the display has answered. */
  const UNKNOWN_SCREEN: Screen := Screen(8, 'U', "Unknown-")

  /** The reply buffer `getScreenSize` reads into. */
  const REPLY_SIZE: nat := 50

  const M50_REPLY: string := [ESC] + "[?1;0c"
  const OLD_3B_REPLY: string := "2070 8-Line"
  const OLD_3A_REPLY: string := ['\U{1}'] + "B[?1;2070_4"
  const TTY_REPLY: string := [ESC] + "[?"

  /** `strncmp(buf, lit, n) == 0` on a buffer at least `n` long and a literal of at least `n` characters. */
  predicate PrefixMatch(buf: string, lit: string, n: nat)
    requires n <= |buf| && n <= |lit|
  {
    buf[..n] == lit[..n]
  }

  /** A cursor-position report "ESC [" x "R" starts at index `i`. */
  predicate ReportAt(buf: string, i: nat)
    requires i + 4 <= |buf|
  {
    buf[i] == ESC && buf[i + 1] == '[' && buf[i + 3] == 'R'
  }

  /** The first report starting at an index from `i` up to 3, if any. */
  function FirstReport(buf: string, i: nat): (r: Option<nat>)
    requires |buf| >= 7
    ensures r.Some? ==> i <= r.value < 4 && ReportAt(buf, r.value)
    ensures r.Some? ==> forall j :: i <= j < r.value ==> !ReportAt(buf, j)
    ensures r.None? ==> forall j :: i <= j < 4 ==> !ReportAt(buf, j)
    decreases 4 - i
  {
    if i >= 4 then None
    else if ReportAt(buf, i) then Some(i)
    else FirstReport(buf, i + 1)
  }

  /** The screen a report's type letter names; an unknown letter leaves the screen as it was. */
  function ReportScreen(x: char, current: Screen): Screen
  {
    if x == 'A' then Screen(4, 'A', "2070-3A")
    else if x == 'B' then Screen(8, 'B', "2070-3B")
    else if x == 'D' then Screen(16, 'D', "2070-3D")
    else current
  }

  /** The screen `getScreenSize` settles on for the reply `buf`. */
  function Classify(buf: string, current: Screen): Screen
    requires |buf| == REPLY_SIZE
  {
    if PrefixMatch(buf, M50_REPLY, 7) then Screen(8, 'm', "Siemens M50")
    else if PrefixMatch(buf, OLD_3B_REPLY, 10) then Screen(8, 'b', "Old 2070-3B")
    else if PrefixMatch(buf, OLD_3A_REPLY, 12) then Screen(4, 'a', "Old 2070-3A")
    else if PrefixMatch(buf, TTY_REPLY, 3) then Screen(16, 'c', "2070-3C/TTY")
    else
      match FirstReport(buf, 0)
      case Some(i) => ReportScreen(buf[i + 2], current)
      case None => current
  }

  /** The M50's reply also starts like a terminal's, and the M50 test comes first. */
  lemma M50BeforeTerminal(buf: string, current: Screen)
    requires |buf| == REPLY_SIZE && buf[..7] == M50_REPLY
    ensures buf[..3] == TTY_REPLY
    ensures Classify(buf, current) == Screen(8, 'm', "Siemens M50")
  {
    assert buf[..3] == buf[..7][..3];
  }

  /** Every classification is one of the known screens or the screen as it was, and always has 4, 8 or 16 lines when it changes. */
  lemma ClassifyKnown(buf: string, current: Screen)
    requires |buf| == REPLY_SIZE
    ensures Classify(buf, current) == current || Classify(buf, current).lines in {4, 8, 16}
  {
  }

  /**
   * The scan of the first four positions for a report, as the loop of
   * `getScreenSize` does it: it stops at the first "ESC [" x "R".
   */
  method ScanReports(buf: string) returns (found: Option<nat>)
    requires |buf| == REPLY_SIZE
    ensures found == FirstReport(buf, 0)
  {
    found := None;
    var i := 0;
    while i < 4
      invariant 0 <= i <= 4
      invariant FirstReport(buf, 0) == FirstReport(buf, i)
    {
      if buf[i] == ESC && buf[i + 1] == '[' && buf[i + 3] == 'R' {
        found := Some(i);
        return;
      }
      i := i + 1;
    }
  }

  /** One call of `readTimeout`: what it returned and the `errno` it left. */
  datatype Attempt = Attempt(ret: int, errno: int)

  /** `ETIMEDOUT` on Linux. */
  const ETIMEDOUT: int := 110

  const MAX_READ_TRIES: nat := 5

  /**
   * The outcome of the read loop from try number `retry` on: the byte count
   * of the first successful read, or -1 after a timeout, an error with no
   * `errno`, or the fifth failed try.
   */
  function ReadFrom(attempts: seq<Attempt>, retry: nat): (r: int)
    requires retry < MAX_READ_TRIES && |attempts| >= MAX_READ_TRIES - retry
    ensures r == -1 || r > 0
    decreases MAX_READ_TRIES - retry
  {
    var a := attempts[0];
    if a.ret > 0 then a.ret
    else if a.errno == ETIMEDOUT || a.errno == 0 then -1
    else if retry + 1 >= MAX_READ_TRIES then -1
    else ReadFrom(attempts[1..], retry + 1)
  }

  /** A try that fails and lets the loop go on. */
  predicate Retryable(a: Attempt)
  {
    a.ret <= 0 && a.errno != ETIMEDOUT && a.errno != 0
  }

  /**
   * The read loop succeeds exactly when one of the first five tries reads
   * something and every try before it failed with a retryable error; it
   * then returns what that try read.
   */
  lemma {:induction false} ReadFromMeaning(attempts: seq<Attempt>, retry: nat)
    requires retry < MAX_READ_TRIES && |attempts| >= MAX_READ_TRIES - retry
    ensures ReadFrom(attempts, retry) > 0 <==>
      exists k :: 0 <= k < MAX_READ_TRIES - retry && attempts[k].ret > 0 && forall j :: 0 <= j < k ==> Retryable(attempts[j])
    ensures ReadFrom(attempts, retry) > 0 ==>
      exists k :: 0 <= k < MAX_READ_TRIES - retry && attempts[k].ret == ReadFrom(attempts, retry)
    decreases MAX_READ_TRIES - retry
  {
    var a := attempts[0];
    if a.ret > 0 {
      assert attempts[0].ret > 0;
    } else if a.errno == ETIMEDOUT || a.errno == 0 {
      forall k | 0 <= k < MAX_READ_TRIES - retry && attempts[k].ret > 0
        ensures !(forall j :: 0 <= j < k ==> Retryable(attempts[j]))
      {
        assert k > 0 && !Retryable(attempts[0]);
      }
    } else if retry + 1 >= MAX_READ_TRIES {
    } else {
      var tail := attempts[1..];
      ReadFromMeaning(tail, retry + 1);
      if ReadFrom(tail, retry + 1) > 0 {
        var k :| 0 <= k < MAX_READ_TRIES - (retry + 1) && tail[k].ret > 0 && forall j :: 0 <= j < k ==> Retryable(tail[j]);
        assert attempts[k + 1].ret > 0;
        assert forall j :: 0 <= j < k + 1 ==> Retryable(attempts[j]) by {
          forall j | 0 <= j < k + 1
            ensures Retryable(attempts[j])
          {
            if j > 0 { assert attempts[j] == tail[j - 1]; }
          }
        }
        var k2 :| 0 <= k2 < MAX_READ_TRIES - (retry + 1) && tail[k2].ret == ReadFrom(tail, retry + 1);
        assert attempts[k2 + 1] == tail[k2];
      } else {
        forall k | 0 <= k < MAX_READ_TRIES - retry && attempts[k].ret > 0
          ensures !(forall j :: 0 <= j < k ==> Retryable(attempts[j]))
        {
          assert k > 0;
          assert tail[k - 1].ret > 0;
          assert !(forall j :: 0 <= j < k - 1 ==> Retryable(tail[j]));
          var j0 :| 0 <= j0 < k - 1 && !Retryable(tail[j0]);
          assert attempts[j0 + 1] == tail[j0];
        }
      }
    }
  }

  /** The read loop of `getScreenSize`, over the outcomes of successive `readTimeout` calls. */
  method ReadReply(attempts: seq<Attempt>) returns (retVal: int)
    requires |attempts| >= MAX_READ_TRIES
    ensures retVal == ReadFrom(attempts, 0)
  {
    var retry := 0;
    var loopOn := true;
    retVal := 0;
    while loopOn
      invariant 0 <= retry < MAX_READ_TRIES || (!loopOn && retry <= MAX_READ_TRIES)
      invariant loopOn ==> ReadFrom(attempts, 0) == ReadFrom(attempts[retry..], retry)
      invariant !loopOn ==> retVal == ReadFrom(attempts, 0)
      decreases MAX_READ_TRIES - retry, loopOn
    {
      var a := attempts[retry];
      retVal := a.ret;
      if retVal > 0 {
        loopOn := false;
      } else {
        if a.errno == ETIMEDOUT || a.errno == 0 {
          retVal := -1;
          loopOn := false;
        }
        retry := retry + 1;
        if retry >= MAX_READ_TRIES {
          retVal := -1;
          loopOn := false;
        }
        if loopOn {
          assert attempts[retry - 1..][1..] == attempts[retry..];
        }
      }
    }
  }

  /** The screen geometry the display test keeps in its globals `num_o_lines`, `screenType` and `screenName`. */
  class Panel {
    var lines: nat
    var kind: char
    var name: string

    function Current(): Screen
      reads this
    {
      Screen(lines, kind, name)
    }

    constructor()
      ensures Current() == UNKNOWN_SCREEN
    {
      lines := 8;
      kind := 'U';
      name := "Unknown-";
    }

    /**
     * `getScreenSize`: ask the display what it is, then classify its reply.
     * A read loop that gives up leaves the globals alone and returns -1.
     */
    method GetScreenSize(attempts: seq<Attempt>, reply: string) returns (ret: int)
      requires |attempts| >= MAX_READ_TRIES && |reply| == REPLY_SIZE
      modifies this
      ensures ReadFrom(attempts, 0) == -1 ==> ret == -1 && Current() == old(Current())
      ensures ReadFrom(attempts, 0) != -1 ==> ret == 0 && Current() == Classify(reply, old(Current()))
    {
      var retVal := ReadReply(attempts);
      if retVal == -1 {
        return -1;
      }
      if reply[..7] == M50_REPLY[..7] {
        lines, kind, name := 8, 'm', "Siemens M50";
      } else if reply[..10] == OLD_3B_REPLY[..10] {
        lines, kind, name := 8, 'b', "Old 2070-3B";
      } else if reply[..12] == OLD_3A_REPLY[..12] {
        lines, kind, name := 4, 'a', "Old 2070-3A";
      } else if reply[..3] == TTY_REPLY[..3] {
        lines, kind, name := 16, 'c', "2070-3C/TTY";
      } else {
        var found := ScanReports(reply);
        if found.Some? {
          var x := reply[found.value + 2];
          if x == 'A' {
            lines, kind, name := 4, 'A', "2070-3A";
          } else if x == 'B' {
            lines, kind, name := 8, 'B', "2070-3B";
          } else if x == 'D' {
            lines, kind, name := 16, 'D', "2070-3D";
          }
        }
      }
      ret := 0;
    }
  }

  // ---------------------------------------------------------------------
  // End banner
  // ---------------------------------------------------------------------

  const BANNER: string := "This concludes the display test."

  /** The column that centres a text of `len` characters on a 40-character line. */
  function BannerColumn(len: nat): (col: nat)
    requires len <= CHARS_PER_LINE
    ensures col >= 1
  {
    (CHARS_PER_LINE - len) / 2 + 1
  }

  /** The blank cells left of a centred text are never more than those right of it, and at most one fewer. */
  lemma BannerCentred(len: nat)
    requires len <= CHARS_PER_LINE
    ensures var left := BannerColumn(len) - 1;
            var right := CHARS_PER_LINE - len - left;
            left <= right <= left + 1
  {
  }

  /** `printEndBanner`: the cursor placed on row 3 at the centring column, then the text. */
  function EndBanner(): (s: string)
    ensures |BANNER| == 32 && BannerColumn(|BANNER|) == 5
    ensures |s| > |BANNER| && s[|s| - |BANNER|..] == BANNER
    ensures DecodeAll(s[..|s| - |BANNER|]) == Some([MoveTo(5, 3)])
  {
    var move := Encode(MoveTo(BannerColumn(|BANNER|), 3));
    EncodeOne(MoveTo(5, 3));
    var s := move + BANNER;
    assert s[..|s| - |BANNER|] == move;
    s
  }

  // ---------------------------------------------------------------------
  // Special characters
  // ---------------------------------------------------------------------

  /** `writeSpecialChar(n)`: show special character `n`, which exists only for 1 to 8. */
  function WriteSpecialChar(n: u32): (s: string)
    ensures !(1 <= n as nat <= MAX_SPECIAL_CHARS) ==> s == ""
  {
    if 0 < n as nat <= MAX_SPECIAL_CHARS then Encode(SpecialChar(n as nat)) else ""
  }

  /** What `writeSpecialChar` sends for 1 to 8 reads back as that special character. */
  lemma WriteSpecialCharDecodes(n: u32)
    requires 1 <= n as nat <= MAX_SPECIAL_CHARS
    ensures DecodeAll(WriteSpecialChar(n)) == Some([SpecialChar(n as nat)])
  {
    EncodeOne(SpecialChar(n as nat));
  }

  /** One character cell of a display line: a character of the font, or a special character. */
  datatype Cell = Glyph(ch: char) | Special(num: nat)

  function RenderCell(c: Cell): string
  {
    match c
    case Glyph(ch) => [ch]
    case Special(n) => Encode(SpecialChar(n))
  }

  /** What is written to the display to show the cells. */
  function Render(cells: seq<Cell>): string
  {
    if cells == [] then "" else RenderCell(cells[0]) + Render(cells[1..])
  }

  lemma {:induction false} RenderAppend(a: seq<Cell>, b: seq<Cell>)
    ensures Render(a + b) == Render(a) + Render(b)
    decreases |a|
  {
    if a == [] {
      assert a + b == b;
    } else {
      assert (a + b)[1..] == a[1..] + b;
      RenderAppend(a[1..], b);
    }
  }

  /** The cells of plain text. */
  function Glyphs(s: string): (cells: seq<Cell>)
    ensures |cells| == |s|
  {
    seq(|s|, i requires 0 <= i < |s| => Glyph(s[i]))
  }

  lemma {:induction false} RenderGlyphs(s: string)
    ensures Render(Glyphs(s)) == s
    decreases |s|
  {
    if s != [] {
      assert Glyphs(s)[1..] == Glyphs(s[1..]);
      RenderGlyphs(s[1..]);
    }
  }

  /**
   * The cells `writeSpecialChars` shows for `n` calls of `writeSpecialChar`
   * starting at character `k`: each number past 8 (or 0, after the 32-bit
   * counter wraps) shows nothing.
   */
  function SpecialsFrom(k: u32, n: nat): seq<Cell>
    decreases n
  {
    if n == 0 then []
    else (if 0 < k as nat <= MAX_SPECIAL_CHARS then [Special(k as nat)] else []) + SpecialsFrom(Inc32(k), n - 1)
  }

  /** `writeSpecialChars(startChar, writeNum)`: nothing unless the start is positive and at most 8 are asked for. */
  function SpecialRun(start: u32, n: u32): seq<Cell>
  {
    if start > 0 && n as nat <= MAX_SPECIAL_CHARS then SpecialsFrom(start, n as nat) else []
  }

  /** The special characters `start` to `start + n - 1`, in order. */
  function Specials(start: nat, n: nat): (cells: seq<Cell>)
    ensures |cells| == n
  {
    seq(n, i requires 0 <= i < n => Special(start + i))
  }

  lemma {:induction false} SpecialsFromInRange(k: u32, n: nat)
    requires 0 < k as nat && k as nat + n <= MAX_SPECIAL_CHARS + 1
    ensures SpecialsFrom(k, n) == Specials(k as nat, n)
    decreases n
  {
    if n > 0 {
      SpecialsFromInRange(Inc32(k), n - 1);
      SpecialsCons(k as nat, n);
    }
  }

  lemma SpecialsCons(start: nat, n: nat)
    requires n > 0
    ensures Specials(start, n) == [Special(start)] + Specials(start + 1, n - 1)
  {
    assert Specials(start, n)[1..] == Specials(start + 1, n - 1);
  }

  /** Within 1 to 8 a run shows exactly the characters asked for, in order. */
  lemma SpecialRunInRange(start: u32, n: u32)
    requires 0 < start as nat && start as nat + n as nat <= MAX_SPECIAL_CHARS + 1
    ensures SpecialRun(start, n) == Specials(start as nat, n as nat)
  {
    SpecialsFromInRange(start, n as nat);
  }

  lemma {:induction false} SpecialsFromBounded(k: u32, n: nat)
    ensures |SpecialsFrom(k, n)| <= n
    ensures forall c :: c in SpecialsFrom(k, n) ==> c.Special? && 1 <= c.num <= MAX_SPECIAL_CHARS
    decreases n
  {
    if n > 0 {
      SpecialsFromBounded(Inc32(k), n - 1);
    }
  }

  /** A run never shows more than it was asked for, and only characters 1 to 8: numbers past 8 are dropped. */
  lemma SpecialRunBounded(start: u32, n: u32)
    ensures |SpecialRun(start, n)| <= n as nat
    ensures forall c :: c in SpecialRun(start, n) ==> c.Special? && 1 <= c.num <= MAX_SPECIAL_CHARS
  {
    SpecialsFromBounded(start, n as nat);
  }

  lemma SpecialsFromStep(k: u32, n: nat)
    requires n > 0
    ensures Render(SpecialsFrom(k, n)) == WriteSpecialChar(k) + Render(SpecialsFrom(Inc32(k), n - 1))
  {
    var head := if 0 < k as nat <= MAX_SPECIAL_CHARS then [Special(k as nat)] else [];
    RenderAppend(head, SpecialsFrom(Inc32(k), n - 1));
    if head != [] {
      assert head[1..] == [];
    }
  }

  /** Text sent so far, followed by a piece and the rest, regrouped. */
  lemma SentThenRest(out: string, w: string, rest: string, target: string)
    requires out + (w + rest) == target
    ensures (out + w) + rest == target
  {
    assert (out + w) + rest == out + (w + rest);
  }

  /** `writeSpecialChars(startChar, writeNum)`. */
  method WriteSpecialChars(startChar: u32, writeNum: u32) returns (out: string)
    ensures out == Render(SpecialRun(startChar, writeNum))
  {
    out := "";
    if startChar > 0 && writeNum as nat <= MAX_SPECIAL_CHARS {
      out := SendSpecials(startChar, writeNum as nat);
    }
  }

  /** The loop of `writeSpecialChars`: `n` characters from `k` on, each one sent only when it is 1 to 8. */
  method SendSpecials(k: u32, n: nat) returns (out: string)
    ensures out == Render(SpecialsFrom(k, n))
  {
    out := "";
    var specialCharNum := k;
    var count: nat := 0;
    while count < n
      invariant count <= n
      invariant out + Render(SpecialsFrom(specialCharNum, n - count)) == Render(SpecialsFrom(k, n))
    {
      SpecialsFromStep(specialCharNum, n - count);
      SentThenRest(out, WriteSpecialChar(specialCharNum), Render(SpecialsFrom(Inc32(specialCharNum), n - count - 1)), Render(SpecialsFrom(k, n)));
      out := out + WriteSpecialChar(specialCharNum);
      specialCharNum := Inc32(specialCharNum);
      count := count + 1;
    }
  }

  /** The row pattern of special character `i`: the low `i` pixels lit, `(1 << i) - 1`. */
  function CharRow(i: nat): nat
  {
    Pow2(i) - 1
  }

  /** Special character `i` is a filled box `i` pixels wide: pixel `j` of each row is lit exactly when `j < i`. */
  lemma SpecialCharIsBox(i: nat, j: nat)
    ensures BitSet(CharRow(i), j) <==> j < i
  {
    LowMaskBits(i, j);
  }

  /** The definition of special character `i`: "ESC P" i "[" and its six rows, separated by ';', then 'f'. */
  function DefineSpecial(i: nat): string
  {
    var r := Decimal(CharRow(i));
    [ESC] + "P" + Decimal(i) + "[" + r + ";" + r + ";" + r + ";" + r + ";" + r + ";" + r + "f"
  }

  /** The definitions of special characters `from` up to `to - 1`, in order. */
  function DefineSpecials(from: nat, to: nat): string
    decreases to - from
  {
    if to <= from then "" else DefineSpecials(from, to - 1) + DefineSpecial(to - 1)
  }

  /** `initSpecialChars`: define characters 1 to 8 in order. */
  method InitSpecialChars() returns (out: string)
    ensures out == DefineSpecials(1, MAX_SPECIAL_CHARS + 1)
  {
    out := "";
    var i: u32 := 1;
    while i as nat <= MAX_SPECIAL_CHARS
      invariant 1 <= i as nat <= MAX_SPECIAL_CHARS + 1
      invariant out == DefineSpecials(1, i as nat)
    {
      out := out + DefineSpecial(i as nat);
      i := i + 1;
    }
  }

  // ---------------------------------------------------------------------
  // Full character set
  // ---------------------------------------------------------------------

  /** The characters `printFullCharSet` scrolls through: the printable ASCII set, space to DEL, in code order. */
  function AsciiString(): (s: string)
    ensures |s| == 96 && forall i :: 0 <= i < 96 ==> s[i] as int == 0x20 + i
  {
    seq(96, i requires 0 <= i < 96 => (0x20 + i) as char)
  }

  /** The string as the source spells it, in three blocks of 32; the third opens with an apostrophe. */
  const ASCII_BLOCK_1: string := " !\"#$%&'()*+,-./0123456789:;<=>?"
  const ASCII_BLOCK_2: string := "@ABCDEFGHIJKLMNOPQRSTUVWXYZ[\\]^_"
  const ASCII_BLOCK_3: string := "'abcdefghijklmnopqrstuvwxyz{|}~\U{7f}"
  const ASCII_AS_WRITTEN: string := ASCII_BLOCK_1 + ASCII_BLOCK_2 + ASCII_BLOCK_3

  lemma AsciiBlock1()
    ensures |ASCII_BLOCK_1| == 32 && forall i :: 0 <= i < 32 ==> ASCII_BLOCK_1[i] as int == 0x20 + i
  {
  }

  lemma AsciiBlock2()
    ensures |ASCII_BLOCK_2| == 32 && forall i :: 0 <= i < 32 ==> ASCII_BLOCK_2[i] as int == 0x40 + i
  {
  }

  lemma AsciiBlock3()
    ensures |ASCII_BLOCK_3| == 32 && ASCII_BLOCK_3[0] == '\''
    ensures forall i :: 1 <= i < 32 ==> ASCII_BLOCK_3[i] as int == 0x60 + i
  {
  }

  /**
   * As spelled, the string agrees with the printable set everywhere but at
   * index 64, where it holds an apostrophe instead of the grave accent: the
   * apostrophe is shown twice and the grave accent never.
   */
  lemma AsciiAsWrittenMissesBacktick()
    ensures |ASCII_AS_WRITTEN| == |AsciiString()| == 96
    ensures forall i :: 0 <= i < 96 && i != 64 ==> ASCII_AS_WRITTEN[i] == AsciiString()[i]
    ensures ASCII_AS_WRITTEN[7] == ASCII_AS_WRITTEN[64] == '\'' && AsciiString()[64] == '`'
    ensures '`' !in ASCII_AS_WRITTEN
  {
    AsciiBlock1();
    AsciiBlock2();
    AsciiBlock3();
    var w := ASCII_AS_WRITTEN;
    forall i | 0 <= i < 96
      ensures i != 64 ==> w[i] as int == 0x20 + i
      ensures w[i] != '`'
    {
      if i < 32 {
        assert w[i] == ASCII_BLOCK_1[i];
      } else if i < 64 {
        assert w[i] == ASCII_BLOCK_2[i - 32];
      } else {
        assert w[i] == ASCII_BLOCK_3[i - 64];
      }
    }
  }

  /** The length of one full cycle: the 96 characters, then the 8 special characters. */
  const CYCLE: nat := 104

  /** Position `p` of the cycle the test scrolls through. */
  function CycleCell(p: nat): Cell
    requires p < CYCLE
  {
    if p < 96 then Glyph(AsciiString()[p]) else Special(p - 95)
  }

  /** The 40 cells of the cycle starting at position `p`, wrapping round. */
  function Window(p: nat): (cells: seq<Cell>)
    ensures |cells| == CHARS_PER_LINE
  {
    seq(CHARS_PER_LINE, c requires 0 <= c < CHARS_PER_LINE => CycleCell((p + c) % CYCLE))
  }

  /**
   * A line of the first loop of `printFullCharSet`: the string from index
   * `indx` cut to 40 characters; if shorter, special characters 1 up to 8
   * follow, and if more than 8 cells are still missing, the start of the string.
   */
  function CharSetLine(indx: nat): seq<Cell>
    requires indx <= 96
  {
    var text := AsciiString()[indx..if indx + 40 <= 96 then indx + 40 else 96];
    if |text| < CHARS_PER_LINE then
      var needed := CHARS_PER_LINE - |text|;
      if needed <= MAX_SPECIAL_CHARS then Glyphs(text) + SpecialRun(1, needed as u32)
      else Glyphs(text) + SpecialRun(1, MAX_SPECIAL_CHARS as u32) + Glyphs(AsciiString()[..needed - MAX_SPECIAL_CHARS])
    else Glyphs(text)
  }

  /**
   * A line of the second loop: special characters `indx + 1` to 8, then the
   * start of the string up to 40 cells.
   */
  function SweepLine(indx: nat): seq<Cell>
    requires indx < MAX_SPECIAL_CHARS
  {
    SpecialRun(indx as u32 + 1, (MAX_SPECIAL_CHARS - indx) as u32) + Glyphs(AsciiString()[..CHARS_PER_LINE - (MAX_SPECIAL_CHARS - indx)])
  }

  /** Cell `c` of the window at `p` is position `p + c` of the cycle, wrapping once past its end. */
  lemma WindowCell(p: nat, c: nat)
    requires c < CHARS_PER_LINE && p + c < 2 * CYCLE
    ensures p + c < CYCLE ==> Window(p)[c] == CycleCell(p + c)
    ensures p + c >= CYCLE ==> Window(p)[c] == CycleCell(p + c - CYCLE)
  {
    if p + c >= CYCLE {
      DivModUnique(p + c, CYCLE, 1, p + c - CYCLE);
    } else {
      DivModUnique(p + c, CYCLE, 0, p + c);
    }
  }

  /** A line that the string fills on its own. */
  lemma CharSetLineFull(indx: nat)
    requires indx + CHARS_PER_LINE <= 96
    ensures CharSetLine(indx) == Window(indx)
  {
    var text := AsciiString()[indx..indx + 40];
    var line := CharSetLine(indx);
    assert line == Glyphs(text);
    forall c | 0 <= c < CHARS_PER_LINE
      ensures line[c] == Window(indx)[c]
    {
      WindowCell(indx, c);
    }
  }

  /** A line the string leaves short by at most 8 cells: special characters fill the rest. */
  lemma CharSetLineShort(indx: nat)
    requires 96 < indx + CHARS_PER_LINE <= 96 + MAX_SPECIAL_CHARS
    ensures CharSetLine(indx) == Window(indx)
  {
    var text := AsciiString()[indx..96];
    var needed := CHARS_PER_LINE - |text|;
    SpecialRunInRange(1, needed as u32);
    var line := CharSetLine(indx);
    assert line == Glyphs(text) + Specials(1, needed);
    forall c | 0 <= c < CHARS_PER_LINE
      ensures line[c] == Window(indx)[c]
    {
      WindowCell(indx, c);
      if c < |text| {
        assert line[c] == Glyph(text[c]);
      } else {
        assert line[c] == Special(1 + c - |text|);
      }
    }
  }

  /** The parts of a line the string leaves short by more than 8 cells. */
  lemma CharSetLineLongParts(indx: nat)
    requires 96 + MAX_SPECIAL_CHARS < indx + CHARS_PER_LINE && indx <= 96
    ensures CharSetLine(indx) ==
      Glyphs(AsciiString()[indx..96]) + Specials(1, MAX_SPECIAL_CHARS) + Glyphs(AsciiString()[..indx - 64])
  {
    SpecialRunInRange(1, MAX_SPECIAL_CHARS as u32);
  }

  lemma CharSetLineLongCell(indx: nat, c: nat)
    requires 96 + MAX_SPECIAL_CHARS < indx + CHARS_PER_LINE && indx <= 96 && c < CHARS_PER_LINE
    ensures |CharSetLine(indx)| == CHARS_PER_LINE
    ensures CharSetLine(indx)[c] == Window(indx)[c]
  {
    CharSetLineLongParts(indx);
    var a := Glyphs(AsciiString()[indx..96]);
    var b := Specials(1, MAX_SPECIAL_CHARS);
    var r := Glyphs(AsciiString()[..indx - 64]);
    var line := a + b + r;
    WindowCell(indx, c);
    if c < |a| {
      assert line[c] == a[c];
    } else if c < |a| + |b| {
      assert line[c] == b[c - |a|];
    } else {
      assert line[c] == r[c - |a| - |b|];
    }
  }

  /** A line the string leaves short by more than 8 cells: all 8 special characters, then the start of the string. */
  lemma CharSetLineLong(indx: nat)
    requires 96 + MAX_SPECIAL_CHARS < indx + CHARS_PER_LINE && indx <= 96
    ensures CharSetLine(indx) == Window(indx)
  {
    CharSetLineLongCell(indx, 0);
    forall c | 0 <= c < CHARS_PER_LINE
      ensures CharSetLine(indx)[c] == Window(indx)[c]
    {
      CharSetLineLongCell(indx, c);
    }
  }

  /** Line `indx` of the first loop is the 40-cell window of the cycle at `indx`. */
  lemma CharSetLineWindow(indx: nat)
    requires indx <= 96
    ensures CharSetLine(indx) == Window(indx)
  {
    if indx + CHARS_PER_LINE <= 96 {
      CharSetLineFull(indx);
    } else if indx + CHARS_PER_LINE <= 96 + MAX_SPECIAL_CHARS {
      CharSetLineShort(indx);
    } else {
      CharSetLineLong(indx);
    }
  }

  /** Line `indx` of the second loop is the window of the cycle at `96 + indx`: the sweep carries the scroll on. */
  lemma SweepLineWindow(indx: nat)
    requires indx < MAX_SPECIAL_CHARS
    ensures SweepLine(indx) == Window(96 + indx)
  {
    var k := MAX_SPECIAL_CHARS - indx;
    SpecialRunInRange(indx as u32 + 1, k as u32);
    var rest := Glyphs(AsciiString()[..CHARS_PER_LINE - k]);
    var line := SweepLine(indx);
    assert line == Specials(indx + 1, k) + rest;
    forall c | 0 <= c < CHARS_PER_LINE
      ensures line[c] == Window(96 + indx)[c]
    {
      WindowCell(96 + indx, c);
      if c < k {
        assert line[c] == Special(indx + 1 + c);
      } else {
        assert line[c] == rest[c - k];
      }
    }
  }

  /** The lines `line(from)` up to `line(to - 1)`, in order. */
  function Concat(line: nat -> string, from: nat, to: nat): string
    decreases to - from
  {
    if to <= from then "" else Concat(line, from, to - 1) + line(to - 1)
  }

  lemma {:induction false} ConcatSplit(line: nat -> string, a: nat, b: nat, c: nat)
    requires a <= b <= c
    ensures Concat(line, a, c) == Concat(line, a, b) + Concat(line, b, c)
    decreases c - b
  {
    if b < c {
      ConcatSplit(line, a, b, c - 1);
      assert (Concat(line, a, b) + Concat(line, b, c - 1)) + line(c - 1) ==
        Concat(line, a, b) + (Concat(line, b, c - 1) + line(c - 1));
    } else {
      assert Concat(line, a, b) + "" == Concat(line, a, b);
    }
  }

  /** The window at `p` as one line. */
  function Line(p: nat): string
  {
    Render(Window(p)) + "\n"
  }

  /** The text of the windows `from` up to `to - 1` of the cycle, each as one line. */
  function Lines(from: nat, to: nat): string
  {
    Concat(Line, from, to)
  }

  lemma LinesSplit(a: nat, b: nat, c: nat)
    requires a <= b <= c
    ensures Lines(a, c) == Lines(a, b) + Lines(b, c)
  {
    ConcatSplit(Line, a, b, c);
  }

  /** Each window adds at least its line feed. */
  lemma {:induction false} LinesLength(a: nat, b: nat)
    requires a <= b
    ensures |Lines(a, b)| >= b - a
    decreases b - a
  {
    if a < b {
      LinesLength(a, b - 1);
      assert Lines(a, b) == Lines(a, b - 1) + Line(b - 1);
    }
  }

  function Newlines(n: nat): (s: string)
    ensures |s| == n
  {
    seq(n, _ => '\n')
  }

  /** One line of the first loop of `printFullCharSet`, for the string from index `indx`. */
  method PrintCharLine(indx: u32) returns (out: string)
    requires indx as nat <= 96
    ensures out == Line(indx as nat)
  {
    var ascii := AsciiString();
    var hi := if indx as nat + CHARS_PER_LINE <= 96 then indx as nat + CHARS_PER_LINE else 96;
    var str := ascii[indx..hi];
    RenderGlyphs(str);
    out := str;
    ghost var cells := Glyphs(str);
    if |str| < CHARS_PER_LINE {
      var charsNeeded := (CHARS_PER_LINE - |str|) as u32;
      if charsNeeded as nat <= MAX_SPECIAL_CHARS {
        var sp := WriteSpecialChars(1, charsNeeded);
        RenderAppend(cells, SpecialRun(1, charsNeeded));
        out := out + sp;
        cells := cells + SpecialRun(1, charsNeeded);
      } else {
        var sp := WriteSpecialChars(1, MAX_SPECIAL_CHARS as u32);
        RenderAppend(cells, SpecialRun(1, MAX_SPECIAL_CHARS as u32));
        out := out + sp;
        cells := cells + SpecialRun(1, MAX_SPECIAL_CHARS as u32);
        var head := ascii[..charsNeeded as nat - MAX_SPECIAL_CHARS];
        RenderGlyphs(head);
        RenderAppend(cells, Glyphs(head));
        out := out + head;
        cells := cells + Glyphs(head);
      }
    }
    assert cells == CharSetLine(indx as nat);
    CharSetLineWindow(indx as nat);
    out := out + "\n";
  }

  /** The first loop of `printFullCharSet`: one line for each index below `lines`, while the test goes on. */
  method PrintCharLines(lines: u32, keepGoing: bool) returns (out: string)
    requires lines as nat <= 97
    ensures out == if keepGoing then Lines(0, lines as nat) else ""
  {
    out := "";
    var indx: u32 := 0;
    while indx < lines && keepGoing
      invariant indx <= lines
      invariant keepGoing ==> out == Lines(0, indx as nat)
      invariant !keepGoing ==> out == ""
    {
      var line := PrintCharLine(indx);
      out := out + line;
      indx := indx + 1;
    }
  }

  /** One line of the second loop: special characters from `indx + 1`, then the start of the string. */
  method PrintSweepLine(indx: u32) returns (out: string)
    requires indx as nat < MAX_SPECIAL_CHARS
    ensures out == Line(96 + indx as nat)
  {
    var specialCharsToPrint := MAX_SPECIAL_CHARS as u32 - indx;
    var sp := WriteSpecialChars(indx + 1, specialCharsToPrint);
    var head := AsciiString()[..CHARS_PER_LINE - specialCharsToPrint as nat];
    RenderGlyphs(head);
    RenderAppend(SpecialRun(indx + 1, specialCharsToPrint), Glyphs(head));
    SweepLineWindow(indx as nat);
    out := sp + head + "\n";
  }

  /** The second loop, run while `run` holds: the eight sweep lines. */
  method PrintSweep(run: bool) returns (out: string)
    ensures out == if run then Lines(96, CYCLE) else ""
  {
    out := "";
    var indx: u32 := 0;
    while indx as nat < MAX_SPECIAL_CHARS && run
      invariant indx as nat <= MAX_SPECIAL_CHARS
      invariant run ==> out == Lines(96, 96 + indx as nat)
      invariant !run ==> out == ""
    {
      var line := PrintSweepLine(indx);
      out := out + line;
      indx := indx + 1;
    }
  }

  /** The third loop, run while `run` holds: one line feed for each line of the screen. */
  method PrintFeeds(numOLines: u32, run: bool) returns (out: string)
    ensures out == if run then Newlines(numOLines as nat) else ""
  {
    out := "";
    var indx: u32 := 0;
    while indx < numOLines && run
      invariant indx <= numOLines
      invariant run ==> out == Newlines(indx as nat)
      invariant !run ==> out == ""
    {
      out := out + "\n";
      indx := indx + 1;
    }
  }

  /** What `printFullCharSet` shows as written: the sweep and the line feeds only once the test is stopping. */
  function FullCharSetAsWritten(lines: nat, keepGoing: bool, numOLines: nat): string
  {
    (if keepGoing then Lines(0, lines) else "") + (if keepGoing then "" else Lines(96, CYCLE) + Newlines(numOLines))
  }

  /** What `printFullCharSet` evidently means to show: the scroll, the sweep and the line feeds while the test goes on. */
  function FullCharSet(lines: nat, keepGoing: bool, numOLines: nat): string
  {
    if keepGoing then Lines(0, lines) + Lines(96, CYCLE) + Newlines(numOLines) else ""
  }

  /** `printFullCharSet(lines)` as written, with `keepGoing` and `num_o_lines` as it finds them. */
  method PrintFullCharSetAsWritten(lines: u32, keepGoing: bool, numOLines: u32) returns (out: string)
    requires lines as nat <= 97
    ensures out == FullCharSetAsWritten(lines as nat, keepGoing, numOLines as nat)
  {
    out := PrintCharLines(lines, keepGoing);
    var sweep := PrintSweep(!keepGoing);
    out := out + sweep;
    var feeds := PrintFeeds(numOLines, !keepGoing);
    out := out + feeds;
  }

  /** `printFullCharSet(lines)` with the last two loops running while the test goes on. */
  method PrintFullCharSet(lines: u32, keepGoing: bool, numOLines: u32) returns (out: string)
    requires lines as nat <= 97
    ensures out == FullCharSet(lines as nat, keepGoing, numOLines as nat)
  {
    out := PrintCharLines(lines, keepGoing);
    var sweep := PrintSweep(keepGoing);
    out := out + sweep;
    var feeds := PrintFeeds(numOLines, keepGoing);
    out := out + feeds;
  }

  /**
   * As written, a run that is not interrupted shows only the scroll: the
   * sweep that would carry the special characters on never appears, so the
   * output falls short of the corrected one.
   */
  lemma FullCharSetAsWrittenSkipsSweep(lines: nat, numOLines: nat)
    ensures FullCharSetAsWritten(lines, true, numOLines) == Lines(0, lines)
    ensures FullCharSetAsWritten(lines, false, numOLines) == Lines(96, CYCLE) + Newlines(numOLines)
    ensures FullCharSetAsWritten(lines, true, numOLines) != FullCharSet(lines, true, numOLines)
  {
    AsWrittenWhileGoing(lines, numOLines);
    AsWrittenWhenStopping(lines, numOLines);
    SweepMissing(lines, numOLines);
  }

  lemma AsWrittenWhileGoing(lines: nat, numOLines: nat)
    ensures FullCharSetAsWritten(lines, true, numOLines) == Lines(0, lines)
  {
    assert Lines(0, lines) + "" == Lines(0, lines);
  }

  lemma AsWrittenWhenStopping(lines: nat, numOLines: nat)
    ensures FullCharSetAsWritten(lines, false, numOLines) == Lines(96, CYCLE) + Newlines(numOLines)
  {
    assert "" + (Lines(96, CYCLE) + Newlines(numOLines)) == Lines(96, CYCLE) + Newlines(numOLines);
  }

  lemma SweepMissing(lines: nat, numOLines: nat)
    ensures FullCharSet(lines, true, numOLines) != Lines(0, lines)
  {
    LinesLength(96, CYCLE);
    assert |FullCharSet(lines, true, numOLines)| > |Lines(0, lines)|;
  }

  /**
   * With the full string, the corrected output shows every window of the
   * cycle once and in order, each a 40-cell line, then the line feeds that
   * scroll the last one off the screen; an interrupted run shows nothing more.
   */
  lemma FullCharSetScrollsThrough(numOLines: nat)
    ensures FullCharSet(96, true, numOLines) == Lines(0, CYCLE) + Newlines(numOLines)
    ensures FullCharSet(96, false, numOLines) == ""
  {
    FullCharSetContinues(96, numOLines);
  }

  lemma FullCharSetContinues(lines: nat, numOLines: nat)
    requires lines == 96
    ensures FullCharSet(lines, true, numOLines) == Lines(0, CYCLE) + Newlines(numOLines)
  {
    LinesSplit(0, lines, CYCLE);
  }

}
