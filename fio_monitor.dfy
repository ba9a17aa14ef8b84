/**
 * The FIO monitor test of `fioMonitorFit.c`: it sends commands to the field
 * I/O module over `/dev/sp5s`, reassembles each reply from however many
 * reads the device needs, identifies the module from the last byte of the
 * module-ID reply, and reads the raw inputs whose byte 17 carries the
 * voltage and fault monitor bits.
 */
module FioMonitor {
  import opened FitTypes
  import FitDump
  import DisplayLib

  const RETRY_COUNT: nat := 10
  const MONITOR_REG: nat := 17
  const NORMAL_MONITOR: byte := 0x80
  const RX_BUF_SIZE: nat := 1024

  // ---------------------------------------------------------------------
  // Dump with highlighted bytes
  // ---------------------------------------------------------------------

  const REVERSE_VIDEO: string := [DisplayLib.ESC, '[', '7', 'm']
  const NORMAL_VIDEO: string := [DisplayLib.ESC, '[', 'm']

  /** Whether `mdmpv` shows byte `b` at index `i` in reverse video. */
  predicate Highlighted(i: nat, b: byte)
  {
    b != 0 || i == MONITOR_REG
  }

  /** How `mdmpv` prints byte `b` at index `i`. */
  function Cell(i: nat, b: byte): string
  {
    if Highlighted(i, b) then REVERSE_VIDEO + FitDump.Hex2(b) + NORMAL_VIDEO else FitDump.Hex2(b)
  }

  /** Reading a printed cell back: whether it was highlighted, and its byte. */
  function ReadCell(s: string): Option<(bool, byte)>
  {
    if |s| == 2 && IsHexChar(s[0]) && IsHexChar(s[1]) then
      Some((false, FitDump.HexPairValue(s[0], s[1])))
    else if |s| == 9 && s[..4] == REVERSE_VIDEO && s[6..] == NORMAL_VIDEO && IsHexChar(s[4]) && IsHexChar(s[5]) then
      Some((true, FitDump.HexPairValue(s[4], s[5])))
    else None
  }

  /** Every cell shows its byte, highlighted exactly when the byte is non-zero or sits at the monitor register. */
  lemma ReadCellOfCell(i: nat, b: byte)
    ensures ReadCell(Cell(i, b)) == Some((b != 0 || i == MONITOR_REG, b))
  {
    FitDump.Hex2RoundTrip(b);
    var h := FitDump.Hex2(b);
    if Highlighted(i, b) {
      var s := REVERSE_VIDEO + h + NORMAL_VIDEO;
      assert s[..4] == REVERSE_VIDEO && s[6..] == NORMAL_VIDEO && s[4] == h[0] && s[5] == h[1];
    }
  }

  /** The separator `mdmpv` prints before byte `i`: an address every 32 bytes, a blank every 16 and every 8. */
  function Separator(i: nat): string
  {
    if i % 32 == 0 then Hex(i, 8) + ": "
    else if i % 16 == 0 then " "
    else if i % 8 == 0 then " "
    else ""
  }

  function DumpFrom(data: seq<byte>, i: nat): string
    decreases |data|
  {
    if data == [] then "" else Separator(i) + Cell(i, data[0]) + DumpFrom(data[1..], i + 1)
  }

  lemma DumpFromStep(data: seq<byte>, i: nat)
    requires i < |data|
    ensures DumpFrom(data[i..], i) == Separator(i) + Cell(i, data[i]) + DumpFrom(data[i + 1..], i + 1)
  {
    assert data[i..][1..] == data[i + 1..];
  }

  /** The prints of one iteration of `mdmpv`'s loop, for byte `b` at index `i`. */
  method MdmpvPiece(i: nat, b: byte) returns (p: string)
    ensures p == Separator(i) + Cell(i, b)
  {
    p := "";
    if i % 32 == 0 {
      p := Hex(i, 8) + ": ";
    } else if i % 16 == 0 {
      p := " ";
    } else if i % 8 == 0 {
      p := " ";
    }
    var cell := FitDump.Hex2(b);
    if b != 0 || i == MONITOR_REG {
      cell := REVERSE_VIDEO + cell + NORMAL_VIDEO;
    }
    p := p + cell;
  }

  /** `mdmpv(cp, sz, mp)`: the text it prints for the bytes `data` under the heading `mp`. */
  method Mdmpv(data: seq<byte>, mp: string) returns (out: string)
    ensures out == "\n" + mp + "\n" + DumpFrom(data, 0) + "\n"
  {
    out := "\n" + mp + "\n";
    ghost var heading := out;
    var i := 0;
    while i < |data|
      invariant 0 <= i <= |data|
      invariant out + DumpFrom(data[i..], i) == heading + DumpFrom(data, 0)
    {
      DumpFromStep(data, i);
      var p := MdmpvPiece(i, data[i]);
      out := out + p;
      i := i + 1;
    }
    assert data[i..] == [];
    out := out + "\n";
  }

  // ---------------------------------------------------------------------
  // Transmit
  // ---------------------------------------------------------------------

  /** `txFio`: `writeRet` is what `write` returned for a command of `sz` bytes. */
  function TxResult(writeRet: int, sz: nat): (r: FtRet)
    ensures r == FtPass <==> writeRet == sz
    ensures r == FtPass || r == FtTxFail
  {
    if writeRet == -1 then FtTxFail
    else if writeRet != sz then FtTxFail
    else FtPass
  }

  // ---------------------------------------------------------------------
  // Receive
  // ---------------------------------------------------------------------

  /** What one `read` of the device gave: an error (EAGAIN or another), or the bytes it had ready. */
  datatype ReadResult = ReadError(eagain: bool) | ReadData(ready: seq<byte>)

  /** One round of `rxFio`: what `select` returned and, if it reported data, what `read` gave. */
  datatype RxEvent = RxEvent(selectRet: int, read: ReadResult)

  /**
   * The outcome of `rxFio` from round `k` on, with `rem` bytes still to come,
   * `retries` EAGAIN failures since the last progress and `got` the bytes
   * received so far: the result and the bytes in the buffer. After the last
   * round the device stays silent and `select` times out.
   */
  function ReceiveFrom(events: seq<RxEvent>, k: nat, rem: nat, retries: nat, got: seq<byte>): (r: (FtRet, seq<byte>))
    requires k <= |events|
    ensures r.0 == FtPass || r.0 == FtRxError || r.0 == FtRxTimeout
    ensures |got| <= |r.1| <= |got| + rem && r.1[..|got|] == got
    ensures r.0 == FtPass ==> |r.1| == |got| + rem
    ensures r.0 != FtPass && rem > 0 ==> |r.1| < |got| + rem
    decreases |events| - k
  {
    if k == |events| then (FtRxTimeout, got)
    else
      var ev := events[k];
      if ev.selectRet < 0 then (FtRxError, got)
      else if ev.selectRet == 0 then (FtRxTimeout, got)
      else match ev.read
        case ReadError(eagain) =>
          if eagain && retries + 1 <= RETRY_COUNT then ReceiveFrom(events, k + 1, rem, retries + 1, got)
          else (FtRxError, got)
        case ReadData(ready) =>
          var chunk := Take(ready, rem);
          if |chunk| == rem then (FtPass, got + chunk)
          else if |chunk| != 0 then
            var r := ReceiveFrom(events, k + 1, rem - |chunk|, 0, got + chunk);
            assert r.1[..|got|] == (got + chunk)[..|got|];
            r
          else (FtRxError, got)
  }

  /** `rxFio(rx_cp, sz, ...)` over the rounds `events`. */
  function Receive(events: seq<RxEvent>, sz: nat): (FtRet, seq<byte>)
  {
    ReceiveFrom(events, 0, sz, 0, [])
  }

  predicate EagainRound(ev: RxEvent)
  {
    ev.selectRet > 0 && ev.read == ReadError(true)
  }

  /** Up to `RETRY_COUNT` EAGAIN failures in a row are waited out. */
  lemma {:induction false} EagainTolerated(events: seq<RxEvent>, k: nat, m: nat, rem: nat, retries: nat, got: seq<byte>)
    requires k + m <= |events| && retries + m <= RETRY_COUNT
    requires forall j :: k <= j < k + m ==> EagainRound(events[j])
    ensures ReceiveFrom(events, k, rem, retries, got) == ReceiveFrom(events, k + m, rem, retries + m, got)
    decreases m
  {
    if m > 0 {
      EagainTolerated(events, k + 1, m - 1, rem, retries + 1, got);
    }
  }

  /** The EAGAIN failure after `RETRY_COUNT` of them ends the receive with an error. */
  lemma EagainExhausted(events: seq<RxEvent>, rem: nat, got: seq<byte>)
    requires |events| == RETRY_COUNT + 1
    requires forall j :: 0 <= j < |events| ==> EagainRound(events[j])
    ensures ReceiveFrom(events, 0, rem, 0, got) == (FtRxError, got)
  {
    EagainTolerated(events, 0, RETRY_COUNT, rem, 0, got);
  }

  /** A short read is progress: it resets the EAGAIN count, so another `RETRY_COUNT` failures are waited out after it. */
  lemma ShortReadResetsRetries(events: seq<RxEvent>, rem: nat, got: seq<byte>, ready: seq<byte>)
    requires 0 < |ready| < rem && |events| == RETRY_COUNT + 1
    requires events[0] == RxEvent(1, ReadData(ready))
    requires forall j :: 1 <= j < |events| ==> EagainRound(events[j])
    ensures ReceiveFrom(events, 0, rem, RETRY_COUNT, got) ==
            ReceiveFrom(events, |events|, rem - |ready|, RETRY_COUNT, got + ready)
  {
    EagainTolerated(events, 1, RETRY_COUNT, rem - |ready|, 0, got + ready);
  }

  /** The bytes a buffer of `sz` holds after the receive: those that arrived, then the zeros of the initial `memset`. */
  function Filled(got: seq<byte>, sz: nat): (s: seq<byte>)
    requires |got| <= sz
    ensures |s| == sz && s[..|got|] == got
    ensures forall j :: |got| <= j < sz ==> s[j] == 0
  {
    got + seq(sz - |got|, _ => 0)
  }

  /** A command of the module protocol: its length, the reply length and its bytes. */
  datatype FioCommand = FioCommand(txsz: nat, rxsz: nat, txCmd: seq<byte>)

  const GET_MODULE_ID_CMD := FioCommand(3, 4, [0x14, 0x83, 0x3c])
  const GET_RAW_INPUTS_CMD2 := FioCommand(3, 15, [0x14, 0x83, 0x34])
  const GET_RAW_INPUTS_CMD8 := FioCommand(3, 22, [0x14, 0x83, 0x34])

  /** The module types `getModuleId` recognises. */
  function ModuleName(id: byte): (name: Option<string>)
    ensures name.Some? <==> 1 <= id <= 6
  {
    match id
    case 1 => Some("2070-2")
    case 2 => Some("2070-8")
    case 3 => Some("2070-2N")
    case 4 => Some("A-B-C conn only")
    case 5 => Some("A-B-C + custom conn")
    case 6 => Some("Custom device")
    case _ => None
  }

  /** The raw-input command `getRawInputs` sends to a module; none for the others. */
  function RawInputsCommand(id: byte): (cmd: Option<FioCommand>)
    ensures id == 1 ==> cmd == Some(GET_RAW_INPUTS_CMD2)
    ensures id == 2 || id == 3 ==> cmd == Some(GET_RAW_INPUTS_CMD8)
    ensures cmd.None? <==> id != 1 && id != 2 && id != 3
  {
    if id == 1 then Some(GET_RAW_INPUTS_CMD2)
    else if id == 2 || id == 3 then Some(GET_RAW_INPUTS_CMD8)
    else None
  }

  /**
   * What `getModuleId` returns, and the module ID it stores when the reply
   * arrived: the transmit or receive failure, else pass for a recognised
   * module and an error for any other ID.
   */
  function ModuleIdOutcome(writeRet: int, events: seq<RxEvent>): (o: (FtRet, Option<byte>))
    ensures o.1.Some? <==> TxResult(writeRet, GET_MODULE_ID_CMD.txsz) == FtPass && Receive(events, GET_MODULE_ID_CMD.rxsz).0 == FtPass
    ensures o.1.Some? ==> o.1.value == Receive(events, GET_MODULE_ID_CMD.rxsz).1[3]
    ensures o.0 == FtPass <==> o.1.Some? && ModuleName(o.1.value).Some?
  {
    var sent := TxResult(writeRet, GET_MODULE_ID_CMD.txsz);
    var (rx, got) := Receive(events, GET_MODULE_ID_CMD.rxsz);
    if sent != FtPass then (sent, None)
    else if rx != FtPass then (rx, None)
    else (if ModuleName(got[3]).Some? then FtPass else FtError, Some(got[3]))
  }

  /**
   * What `getRawInputs` returns for module `id`: pass for a module without
   * a raw-input command, else the transmit or receive outcome of that
   * command.
   */
  function RawInputsResult(id: byte, writeRet: int, events: seq<RxEvent>): (r: FtRet)
    ensures RawInputsCommand(id).None? ==> r == FtPass
    ensures RawInputsCommand(id).Some? ==>
      (r == FtPass <==> writeRet == RawInputsCommand(id).value.txsz && Receive(events, RawInputsCommand(id).value.rxsz).0 == FtPass)
  {
    match RawInputsCommand(id)
    case None => FtPass
    case Some(cmd) =>
      if TxResult(writeRet, cmd.txsz) != FtPass then FtTxFail else Receive(events, cmd.rxsz).0
  }

  /** The link to the module: the shared receive buffer and the module ID last read. */
  class FioLink {
    var rxBuf: array<byte>
    var modId: byte

    ghost predicate Valid()
      reads this
    {
      rxBuf.Length == RX_BUF_SIZE
    }

    constructor()
      ensures Valid() && fresh(rxBuf)
      ensures rxBuf[..] == seq(RX_BUF_SIZE, _ => 0) && modId == 0
    {
      rxBuf := new byte[RX_BUF_SIZE](_ => 0);
      modId := 0;
    }

    /**
     * `rxFio(rxBuf, sz, ...)`: clear the first `sz` bytes, then read until
     * they are all there or a round fails.
     */
    method RxFio(sz: nat, events: seq<RxEvent>) returns (ret: FtRet)
      requires Valid() && sz <= RX_BUF_SIZE
      modifies rxBuf
      ensures ret == Receive(events, sz).0
      ensures rxBuf[..sz] == Filled(Receive(events, sz).1, sz)
      ensures rxBuf[sz..] == old(rxBuf[sz..])
    {
      ClearPrefix(sz);
      var rem: nat, retries: nat, k: nat := sz, 0, 0;
      ghost var got: seq<byte> := [];
      while k < |events|
        invariant k <= |events| && |got| + rem == sz
        invariant ReceiveFrom(events, k, rem, retries, got) == Receive(events, sz)
        invariant rxBuf[..sz] == Filled(got, sz)
        invariant rxBuf[sz..] == old(rxBuf[sz..])
        decreases |events| - k
      {
        var ev := events[k];
        if ev.selectRet < 0 {
          return FtRxError;
        }
        if ev.selectRet == 0 {
          return FtRxTimeout;
        }
        match ev.read {
          case ReadError(eagain) =>
            if eagain && retries + 1 <= RETRY_COUNT {
              retries := retries + 1;
            } else {
              return FtRxError;
            }
          case ReadData(ready) =>
            var chunk := Take(ready, rem);
            if |chunk| == rem {
              StoreChunk(sz - rem, chunk, sz, got);
              got := got + chunk;
              return FtPass;
            }
            if |chunk| == 0 {
              return FtRxError;
            }
            StoreChunk(sz - rem, chunk, sz, got);
            got := got + chunk;
            rem, retries := rem - |chunk|, 0;
        }
        k := k + 1;
      }
      ret := FtRxTimeout;
    }

    /** `memset(rxBuf, 0, sz)`. */
    method ClearPrefix(sz: nat)
      requires Valid() && sz <= RX_BUF_SIZE
      modifies rxBuf
      ensures rxBuf[..sz] == Filled([], sz)
      ensures rxBuf[sz..] == old(rxBuf[sz..])
    {
      forall j | 0 <= j < sz {
        rxBuf[j] := 0;
      }
    }

    /** `read(fd, cp, rem)` storing `chunk` after the `got` bytes already received. */
    method StoreChunk(pos: nat, chunk: seq<byte>, sz: nat, ghost got: seq<byte>)
      requires Valid() && pos == |got| && pos + |chunk| <= sz <= RX_BUF_SIZE
      requires rxBuf[..sz] == Filled(got, sz)
      modifies rxBuf
      ensures rxBuf[..sz] == Filled(got + chunk, sz)
      ensures rxBuf[sz..] == old(rxBuf[sz..])
    {
      forall j | 0 <= j < |chunk| {
        rxBuf[pos + j] := chunk[j];
      }
      assert forall j :: 0 <= j < sz ==> rxBuf[j] == Filled(got + chunk, sz)[j];
    }

    /**
     * `runFioCmd`: send the command and, if that worked, receive its reply
     * into the shared buffer.
     */
    method RunFioCmd(cmd: FioCommand, writeRet: int, events: seq<RxEvent>) returns (ret: FtRet)
      requires Valid() && cmd.rxsz <= RX_BUF_SIZE
      modifies rxBuf
      ensures TxResult(writeRet, cmd.txsz) != FtPass ==> ret == FtTxFail && rxBuf[..] == old(rxBuf[..])
      ensures TxResult(writeRet, cmd.txsz) == FtPass ==>
        && ret == Receive(events, cmd.rxsz).0
        && rxBuf[..cmd.rxsz] == Filled(Receive(events, cmd.rxsz).1, cmd.rxsz)
      ensures rxBuf[cmd.rxsz..] == old(rxBuf[cmd.rxsz..])
    {
      ret := TxResult(writeRet, cmd.txsz);
      if ret == FtPass {
        ret := RxFio(cmd.rxsz, events);
      }
    }

    /**
     * `getModuleId`: ask for the module ID; on a reply, it is the reply's
     * last byte, and an ID outside 1..6 turns the pass into an error.
     */
    method GetModuleId(writeRet: int, events: seq<RxEvent>) returns (ret: FtRet)
      requires Valid()
      modifies this, rxBuf
      ensures Valid() && rxBuf == old(rxBuf)
      ensures var sent := TxResult(writeRet, GET_MODULE_ID_CMD.txsz);
              var (rx, got) := Receive(events, GET_MODULE_ID_CMD.rxsz);
              if sent != FtPass then ret == sent && modId == old(modId)
              else if rx != FtPass then ret == rx && modId == old(modId)
              else modId == got[3] && (ret == if ModuleName(modId).Some? then FtPass else FtError)
      ensures rxBuf[4..] == old(rxBuf[4..])
      ensures ret == ModuleIdOutcome(writeRet, events).0
      ensures modId == if ModuleIdOutcome(writeRet, events).1.Some? then ModuleIdOutcome(writeRet, events).1.value else old(modId)
    {
      ret := RunFioCmd(GET_MODULE_ID_CMD, writeRet, events);
      if ret == FtPass {
        modId := rxBuf[GET_MODULE_ID_CMD.rxsz - 1];
        if !(1 <= modId <= 6) {
          ret := FtError;
        }
      }
    }

    /**
     * `getRawInputs`: read the raw inputs the module type supports and
     * report whether the monitor byte differs from its normal value. That
     * report does not change the result.
     */
    method GetRawInputs(writeRet: int, events: seq<RxEvent>) returns (ret: FtRet, monitorChanged: bool)
      requires Valid()
      modifies rxBuf
      ensures var cmd := RawInputsCommand(modId);
              && (cmd.None? ==> ret == FtPass && rxBuf[..] == old(rxBuf[..]))
              && (cmd.Some? ==> TxResult(writeRet, cmd.value.txsz) == FtPass ==> ret == Receive(events, cmd.value.rxsz).0)
              && (cmd.Some? ==> TxResult(writeRet, cmd.value.txsz) != FtPass ==> ret == FtTxFail)
      ensures monitorChanged <==> ret == FtPass && rxBuf[MONITOR_REG] != NORMAL_MONITOR
      ensures modId != 2 && modId != 3 ==> rxBuf[MONITOR_REG] == old(rxBuf[MONITOR_REG])
      ensures ret == RawInputsResult(modId, writeRet, events)
      ensures var cmd := RawInputsCommand(modId);
              cmd.Some? ==>
                && rxBuf[cmd.value.rxsz..] == old(rxBuf[cmd.value.rxsz..])
                && (TxResult(writeRet, cmd.value.txsz) == FtPass ==>
                      rxBuf[..cmd.value.rxsz] == Filled(Receive(events, cmd.value.rxsz).1, cmd.value.rxsz))
                && (TxResult(writeRet, cmd.value.txsz) != FtPass ==> rxBuf[..] == old(rxBuf[..]))
      ensures modId == 2 || modId == 3 ==>
        (monitorChanged <==> ret == FtPass && Receive(events, GET_RAW_INPUTS_CMD8.rxsz).1[MONITOR_REG] != NORMAL_MONITOR)
    {
      var cmd := RawInputsCommand(modId);
      if cmd.Some? {
        ret := RunFioCmd(cmd.value, writeRet, events);
        if cmd.value.rxsz <= MONITOR_REG {
          assert rxBuf[MONITOR_REG] == rxBuf[cmd.value.rxsz..][MONITOR_REG - cmd.value.rxsz];
        }
      } else {
        ret := FtPass;
      }
      monitorChanged := false;
      if ret != FtPass {
        return;
      }
      if rxBuf[MONITOR_REG] != NORMAL_MONITOR {
        monitorChanged := true;
      }
    }

    /**
     * The body of `fioMonitorFit` once the device is open: the result it
     * records and the note it completes with.
     */
    method Run(idWrite: int, idEvents: seq<RxEvent>, rawWrite: int, rawEvents: seq<RxEvent>)
      returns (recorded: FtRet, note: string)
      requires Valid()
      modifies this, rxBuf
      ensures recorded == FtPass <==> note == ""
      ensures note == "getModuleId failed" ==> recorded != FtPass
      ensures var (idRet, id) := ModuleIdOutcome(idWrite, idEvents);
              && (idRet != FtPass ==> recorded == idRet && note == "getModuleId failed")
              && (idRet == FtPass ==>
                    recorded == RawInputsResult(id.value, rawWrite, rawEvents)
                    && note == (if recorded == FtPass then "" else "getRawInputs failed"))
    {
      var ret := GetModuleId(idWrite, idEvents);
      if ret != FtPass {
        return ret, "getModuleId failed";
      }
      var changed;
      ret, changed := GetRawInputs(rawWrite, rawEvents);
      if ret != FtPass {
        return ret, "getRawInputs failed";
      }
      return ret, "";
    }
  }

  /** The monitor byte lies beyond the 15-byte reply of a 2070-2 module, so its raw-input reply never sets it. */
  lemma MonitorBeyondShortReply()
    ensures GET_RAW_INPUTS_CMD2.rxsz <= MONITOR_REG < GET_RAW_INPUTS_CMD8.rxsz
  {
  }
}
