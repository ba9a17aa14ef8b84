/**
 * The front-panel primitives of `displayLib.c`. Each primitive hands one or
 * two fixed or formatted escape sequences to `writeOut`, which sends them to
 * the display port when it is open. Here every primitive is the text it
 * emits, and a decoder reads a stream of such sequences back into the
 * commands that produced it.
 */
module DisplayLib {
  import opened FitTypes

  const ESC: char := '\U{1b}'

  /** The attributes switched on with a trailing 'h' and off with a trailing 'l'. */
  datatype Toggle = AutoScroll | Cursor | ReverseVideo | Underline | CharBlink | AutoWrap | Backlight

  /** A display command. `MoveTo` takes the column `x` and the row `y`. */
  datatype Command =
    | Set(attr: Toggle, enable: bool)
    | MoveTo(x: nat, y: nat)
    | EraseScreen
    | Home
    | SetTab
    | ClearTab(stop: nat)
    | BacklightTime(mins: nat)
    | Reset
    | SpecialChar(num: nat)

  /** The parameter text between "ESC[" and the final 'h' or 'l' of each toggle. */
  function ToggleBody(t: Toggle): string
  {
    match t
    case AutoScroll => "<47"
    case Cursor => "?25"
    case ReverseVideo => "27"
    case Underline => "24"
    case CharBlink => "25"
    case AutoWrap => "?7"
    case Backlight => "<5"
  }

  /** The escape sequence of a command, as the display receives it. */
  function Encode(c: Command): string
  {
    match c
    case Set(t, e) => [ESC] + "[" + ToggleBody(t) + (if e then "h" else "l")
    case MoveTo(x, y) => [ESC] + "[" + Decimal(y) + ";" + Decimal(x) + "f"
    case EraseScreen => [ESC] + "[2J"
    case Home => [ESC] + "[H"
    case SetTab => [ESC] + "H"
    case ClearTab(n) => [ESC] + "[" + Decimal(n) + "g"
    case BacklightTime(m) => [ESC] + "[<" + Decimal(m) + "S"
    case Reset => [ESC] + "c"
    case SpecialChar(n) => [ESC] + "[<" + Decimal(n) + "V"
  }

  function EncodeAll(cs: seq<Command>): string
  {
    if cs == [] then "" else Encode(cs[0]) + EncodeAll(cs[1..])
  }

  // ---------------------------------------------------------------------
  // The primitives
  // ---------------------------------------------------------------------

  /** What `writeOut(string)` sends: the string when the display is open, nothing when `fpd` is 0. */
  function WriteOut(fpd: int, s: string): (sent: string)
    ensures fpd == 0 ==> sent == ""
    ensures fpd != 0 ==> sent == s
  {
    if fpd != 0 then s else ""
  }

  /** `writeOut` reports an error when the display is not open, or when `write` returns anything but the length. */
  predicate WriteOutError(fpd: int, s: string, written: int)
  {
    fpd == 0 || written != |s|
  }

  /** `setAutoScroll`, `setCursor`, `setReverseVideo`, `setUnderline`, `setCharBlink`, `setAutoWrap`, `backlightOn` and `backlightOff`. */
  function SetToggle(t: Toggle, enable: bool): (s: string)
    ensures DecodeAll(s) == Some([Set(t, enable)])
  {
    EncodeOne(Set(t, enable));
    Encode(Set(t, enable))
  }

  /** `snprintf` into a buffer of `size` bytes keeps at most `size - 1` characters. */
  function Truncate(s: string, size: nat): (r: string)
    requires size >= 1
    ensures |r| <= size - 1
  {
    if |s| < size then s else s[..size - 1]
  }

  /**
   * `moveCursor(x, y)`: "ESC[y;xf" through a 12-byte buffer. The sequence
   * reaches the display whole, and reads back as the move, exactly when the
   * two numbers together have at most 7 digits.
   */
  function MoveCursor(x: u32, y: u32): (s: string)
    ensures |s| <= 11
    ensures DecodeAll(s) == Some([MoveTo(x as nat, y as nat)]) <==> |Decimal(y as nat)| + |Decimal(x as nat)| <= 7
  {
    var full := Encode(MoveTo(x as nat, y as nat));
    if |full| <= 11 then
      EncodeOne(MoveTo(x as nat, y as nat));
      full
    else
      TruncatedMoveUndecodable(x as nat, y as nat);
      full[..11]
  }

  /** `moveCursorHome`. */
  function MoveCursorHome(): (s: string)
    ensures DecodeAll(s) == Some([Home])
  {
    EncodeOne(Home);
    Encode(Home)
  }

  /** `clearScreen`: erase the screen, then home the cursor. */
  function ClearScreen(): (s: string)
    ensures DecodeAll(s) == Some([EraseScreen, Home])
  {
    EncodeAllPair(EraseScreen, Home);
    EncodeAllDecodes([EraseScreen, Home]);
    Encode(EraseScreen) + Encode(Home)
  }

  /** `setTabStop`. */
  function SetTabStop(): (s: string)
    ensures DecodeAll(s) == Some([SetTab])
  {
    EncodeOne(SetTab);
    Encode(SetTab)
  }

  /** `clearTabStop(num)`: "ESC[ng" for the stops 0 to 3, nothing for any other number. */
  function ClearTabStop(num: int): (s: string)
    ensures 0 <= num < 4 ==> DecodeAll(s) == Some([ClearTab(num)])
    ensures !(0 <= num < 4) ==> s == ""
  {
    if 0 <= num < 4 then
      EncodeOne(ClearTab(num));
      Encode(ClearTab(num))
    else ""
  }

  /** `setBacklightTime(mins)`: "ESC[<mS" for 0 to 63 minutes, nothing otherwise. */
  function SetBacklightTime(mins: int): (s: string)
    ensures 0 <= mins < 64 ==> DecodeAll(s) == Some([BacklightTime(mins)])
    ensures !(0 <= mins < 64) ==> s == ""
  {
    if 0 <= mins < 64 then
      EncodeOne(BacklightTime(mins));
      Encode(BacklightTime(mins))
    else ""
  }

  /** `resetDisplay`: the reset sequence (the 250 ms wait and the read that drains the reply are left out). */
  function ResetDisplay(): (s: string)
    ensures DecodeAll(s) == Some([Reset])
  {
    EncodeOne(Reset);
    Encode(Reset)
  }

  /** The commands `initDisplay` sends, in order. */
  const INIT_COMMANDS: seq<Command> := [
    Set(AutoScroll, false), Set(AutoWrap, false), Set(Cursor, false),
    Set(ReverseVideo, false), Set(Underline, false), Set(CharBlink, false),
    EraseScreen, Home]

  /**
   * `initDisplay`: autoscroll, autowrap, cursor, reverse video, underline and
   * blink switched off, in that order, then the screen cleared.
   */
  function InitDisplay(): (s: string)
    ensures DecodeAll(s) == Some(INIT_COMMANDS)
  {
    InitDisplayCommands();
    EncodeAllDecodes(INIT_COMMANDS);
    SetToggle(AutoScroll, false) + (SetToggle(AutoWrap, false) + (SetToggle(Cursor, false) +
      (SetToggle(ReverseVideo, false) + (SetToggle(Underline, false) + (SetToggle(CharBlink, false) +
      ClearScreen())))))
  }

  lemma InitDisplayCommands()
    ensures SetToggle(AutoScroll, false) + (SetToggle(AutoWrap, false) + (SetToggle(Cursor, false) +
      (SetToggle(ReverseVideo, false) + (SetToggle(Underline, false) + (SetToggle(CharBlink, false) +
      ClearScreen()))))) == EncodeAll(INIT_COMMANDS)
  {
    var t := [EraseScreen, Home];
    EncodeAllPair(EraseScreen, Home);
    EncodeAllCons(Set(CharBlink, false), t);
    t := [Set(CharBlink, false)] + t;
    EncodeAllCons(Set(Underline, false), t);
    t := [Set(Underline, false)] + t;
    EncodeAllCons(Set(ReverseVideo, false), t);
    t := [Set(ReverseVideo, false)] + t;
    EncodeAllCons(Set(Cursor, false), t);
    t := [Set(Cursor, false)] + t;
    EncodeAllCons(Set(AutoWrap, false), t);
    t := [Set(AutoWrap, false)] + t;
    EncodeAllCons(Set(AutoScroll, false), t);
    t := [Set(AutoScroll, false)] + t;
    assert t == INIT_COMMANDS;
  }

  lemma EncodeAllCons(c: Command, cs: seq<Command>)
    ensures EncodeAll([c] + cs) == Encode(c) + EncodeAll(cs)
  {
    assert ([c] + cs)[1..] == cs;
  }

  lemma EncodeAllPair(a: Command, b: Command)
    ensures EncodeAll([a, b]) == Encode(a) + Encode(b)
  {
    EncodeAllCons(b, []);
    EncodeAllCons(a, [b]);
    assert [a] + [b] == [a, b];
    assert [b] + [] == [b];
  }

  // ---------------------------------------------------------------------
  // Reading a command stream back
  // ---------------------------------------------------------------------

  predicate IsLetter(ch: char) { 'A' <= ch <= 'Z' || 'a' <= ch <= 'z' }

  /** The first index at or after `i` holding a letter, or `|s|`. */
  function FindFinal(s: string, i: nat): (k: nat)
    requires i <= |s|
    ensures i <= k <= |s|
    ensures forall j :: i <= j < k ==> !IsLetter(s[j])
    ensures k < |s| ==> IsLetter(s[k])
    decreases |s| - i
  {
    if i == |s| then i else if IsLetter(s[i]) then i else FindFinal(s, i + 1)
  }

  /** The index of the first ';' in `s`, or `|s|`. */
  function FindSemicolon(s: string): (k: nat)
    ensures k <= |s|
    ensures forall j :: 0 <= j < k ==> s[j] != ';'
    ensures k < |s| ==> s[k] == ';'
  {
    if s == [] then 0 else if s[0] == ';' then 0 else 1 + FindSemicolon(s[1..])
  }

  predicate AllDigits(s: string)
  {
    forall i :: 0 <= i < |s| ==> IsDigit(s[i])
  }

  /** The value of a non-empty string of digits. */
  function Number(s: string): Option<nat>
  {
    if s != [] && AllDigits(s) then Some(DecimalValue(s)) else None
  }

  function ToggleOf(body: string): Option<Toggle>
  {
    if body == "<47" then Some(AutoScroll)
    else if body == "?25" then Some(Cursor)
    else if body == "27" then Some(ReverseVideo)
    else if body == "24" then Some(Underline)
    else if body == "25" then Some(CharBlink)
    else if body == "?7" then Some(AutoWrap)
    else if body == "<5" then Some(Backlight)
    else None
  }

  /** The command of a control sequence "ESC[" `body` `f`. */
  function Interpret(body: string, f: char): Option<Command>
  {
    if f == 'h' || f == 'l' then
      (match ToggleOf(body)
       case Some(t) => Some(Set(t, f == 'h'))
       case None => None)
    else if f == 'f' then
      var k := FindSemicolon(body);
      if k == |body| then None
      else
        (match (Number(body[k + 1..]), Number(body[..k]))
         case (Some(x), Some(y)) => Some(MoveTo(x, y))
         case _ => None)
    else if f == 'J' then (if body == "2" then Some(EraseScreen) else None)
    else if f == 'H' then (if body == "" then Some(Home) else None)
    else if f == 'g' then
      (match Number(body)
       case Some(n) => Some(ClearTab(n))
       case None => None)
    else if f == 'S' || f == 'V' then
      if body == [] || body[0] != '<' then None
      else
        (match Number(body[1..])
         case Some(n) => Some(if f == 'S' then BacklightTime(n) else SpecialChar(n))
         case None => None)
    else None
  }

  /** The command at the front of `s`, and how many characters it takes. */
  function DecodeOne(s: string): Option<(Command, nat)>
  {
    if |s| < 2 || s[0] != ESC then None
    else if s[1] == 'H' then Some((SetTab, 2))
    else if s[1] == 'c' then Some((Reset, 2))
    else if s[1] != '[' then None
    else
      var k := FindFinal(s, 2);
      if k == |s| then None
      else
        match Interpret(s[2..k], s[k])
        case Some(c) => Some((c, k + 1))
        case None => None
  }

  /** The commands of a stream made only of whole escape sequences. */
  function DecodeAll(s: string): Option<seq<Command>>
    decreases |s|
  {
    if s == "" then Some([])
    else
      match DecodeOne(s)
      case None => None
      case Some((c, n)) =>
        if n == 0 || n > |s| then None
        else
          match DecodeAll(s[n..])
          case None => None
          case Some(cs) => Some([c] + cs)
  }

  // ---------------------------------------------------------------------
  // Round trip
  // ---------------------------------------------------------------------

  lemma DecimalDigits(n: nat)
    ensures Decimal(n) != [] && AllDigits(Decimal(n))
    ensures Number(Decimal(n)) == Some(n)
    ensures forall i :: 0 <= i < |Decimal(n)| ==> !IsLetter(Decimal(n)[i]) && Decimal(n)[i] != ';' && Decimal(n)[i] != '<'
  {
    DecimalRoundTrip(n);
  }

  /** The parameter text of a sequence, and its final letter. */
  function Body(c: Command): string
    requires !c.SetTab? && !c.Reset?
  {
    match c
    case Set(t, _) => ToggleBody(t)
    case MoveTo(x, y) => Decimal(y) + ";" + Decimal(x)
    case EraseScreen => "2"
    case Home => ""
    case ClearTab(n) => Decimal(n)
    case BacklightTime(m) => "<" + Decimal(m)
    case SpecialChar(n) => "<" + Decimal(n)
  }

  function Final(c: Command): char
    requires !c.SetTab? && !c.Reset?
  {
    match c
    case Set(_, e) => if e then 'h' else 'l'
    case MoveTo(_, _) => 'f'
    case EraseScreen => 'J'
    case Home => 'H'
    case ClearTab(_) => 'g'
    case BacklightTime(_) => 'S'
    case SpecialChar(_) => 'V'
  }

  /** The shape every parameterised sequence shares: "ESC[", a body free of letters, a final letter. */
  predicate Shaped(c: Command)
    requires !c.SetTab? && !c.Reset?
  {
    && Encode(c) == [ESC] + "[" + Body(c) + [Final(c)]
    && (forall i :: 0 <= i < |Body(c)| ==> !IsLetter(Body(c)[i]))
    && IsLetter(Final(c))
  }

  lemma BodyShape(c: Command)
    requires !c.SetTab? && !c.Reset?
    ensures Shaped(c)
    ensures Interpret(Body(c), Final(c)) == Some(c)
  {
    match c
    case Set(t, e) => ToggleShape(t, e);
    case MoveTo(x, y) => MoveShape(x, y);
    case EraseScreen =>
    case Home =>
    case ClearTab(n) => ClearTabShape(n);
    case BacklightTime(m) => AngleShape(c);
    case SpecialChar(n) => AngleShape(c);
  }

  lemma ToggleOfBody(t: Toggle)
    ensures ToggleOf(ToggleBody(t)) == Some(t)
  {
    match t
    case AutoScroll =>
    case Cursor =>
    case ReverseVideo =>
    case Underline =>
    case CharBlink =>
    case AutoWrap =>
    case Backlight =>
  }

  lemma ToggleShape(t: Toggle, e: bool)
    ensures Shaped(Set(t, e))
    ensures Interpret(Body(Set(t, e)), Final(Set(t, e))) == Some(Set(t, e))
  {
    ToggleOfBody(t);
  }

  lemma MoveShape(x: nat, y: nat)
    ensures Shaped(MoveTo(x, y))
    ensures Interpret(Body(MoveTo(x, y)), Final(MoveTo(x, y))) == Some(MoveTo(x, y))
  {
    DecimalDigits(x);
    DecimalDigits(y);
    var b := Body(MoveTo(x, y));
    var k := |Decimal(y)|;
    assert b[..k] == Decimal(y) && b[k + 1..] == Decimal(x) && b[k] == ';';
    FindSemicolonAt(b, k);
  }

  lemma ClearTabShape(n: nat)
    ensures Shaped(ClearTab(n))
    ensures Interpret(Body(ClearTab(n)), Final(ClearTab(n))) == Some(ClearTab(n))
  {
    DecimalDigits(n);
  }

  lemma AngleShape(c: Command)
    requires c.BacklightTime? || c.SpecialChar?
    ensures Shaped(c)
    ensures Interpret(Body(c), Final(c)) == Some(c)
  {
    var n := if c.BacklightTime? then c.mins else c.num;
    DecimalDigits(n);
    assert Body(c) == "<" + Decimal(n);
    assert Body(c)[1..] == Decimal(n);
  }

  lemma {:induction false} FindSemicolonAt(s: string, k: nat)
    requires k < |s| && s[k] == ';' && forall j :: 0 <= j < k ==> s[j] != ';'
    ensures FindSemicolon(s) == k
    decreases k
  {
    if k > 0 {
      FindSemicolonAt(s[1..], k - 1);
    }
  }

  lemma {:induction false} FindFinalAt(s: string, i: nat, k: nat)
    requires i <= k < |s| && IsLetter(s[k]) && forall j :: i <= j < k ==> !IsLetter(s[j])
    ensures FindFinal(s, i) == k
    decreases k - i
  {
    if i < k {
      FindFinalAt(s, i + 1, k);
    }
  }

  /** Each sequence reads back as its command, whatever follows it. */
  lemma DecodeEncode(c: Command, rest: string)
    ensures DecodeOne(Encode(c) + rest) == Some((c, |Encode(c)|))
  {
    if !c.SetTab? && !c.Reset? {
      BodyShape(c);
      var s := Encode(c) + rest;
      var b := Body(c);
      var k := 2 + |b|;
      assert s[k] == Final(c);
      assert s[2..k] == b;
      FindFinalAt(s, 2, k);
    }
  }

  lemma EncodeOne(c: Command)
    ensures DecodeAll(Encode(c)) == Some([c])
  {
    EncodeAllCons(c, []);
    assert [c] + [] == [c];
    assert Encode(c) + EncodeAll([]) == Encode(c);
    EncodeAllDecodes([c]);
  }

  /** A stream of sequences reads back as the commands that produced it, in order. */
  lemma {:induction false} EncodeAllDecodes(cs: seq<Command>)
    ensures DecodeAll(EncodeAll(cs)) == Some(cs)
    decreases |cs|
  {
    if cs != [] {
      var c, t := cs[0], EncodeAll(cs[1..]);
      var s := Encode(c) + t;
      assert EncodeAll(cs) == s;
      DecodeEncode(c, t);
      var n := |Encode(c)|;
      assert 0 < n <= |s| by { assert Encode(c)[0] == ESC; }
      assert s[n..] == t;
      EncodeAllDecodes(cs[1..]);
      DecodeAllStep(s, c, n, cs[1..]);
      assert [c] + cs[1..] == cs;
    }
  }

  /** A stream whose first sequence reads as `c` and whose rest reads as `cs` reads as `c` then `cs`. */
  lemma DecodeAllStep(s: string, c: Command, n: nat, cs: seq<Command>)
    requires 0 < n <= |s| && DecodeOne(s) == Some((c, n)) && DecodeAll(s[n..]) == Some(cs)
    ensures DecodeAll(s) == Some([c] + cs)
  {
  }

  /** A move cut short by the 12-byte buffer has lost its final 'f' and reads back as nothing. */
  lemma TruncatedMoveUndecodable(x: nat, y: nat)
    requires |Encode(MoveTo(x, y))| > 11
    ensures DecodeAll(Encode(MoveTo(x, y))[..11]) == None
  {
    var c := MoveTo(x, y);
    MoveShape(x, y);
    var s := Encode(c)[..11];
    var b := Body(c);
    forall j | 2 <= j < 11
      ensures !IsLetter(s[j])
    {
      assert s[j] == b[j - 2];
    }
    FindFinalNone(s, 2);
  }

  lemma {:induction false} FindFinalNone(s: string, i: nat)
    requires i <= |s| && forall j :: i <= j < |s| ==> !IsLetter(s[j])
    ensures FindFinal(s, i) == |s|
    decreases |s| - i
  {
    if i < |s| {
      FindFinalNone(s, i + 1);
    }
  }
}
