/**
 * The KA3005P command/response codec: ASCII command frames built in a
 * 15-byte buffer, sent and answered over the CDC session of module Cdc,
 * replies parsed as decimal numerals, and the status byte decoded through
 * its bit masks.
 *
 * Text is kept as bytes (`seq<byte>`), as the C code keeps it in `char`
 * buffers. A C string argument is modelled by its characters without the
 * terminating NUL. A set-point value is a whole number of hundredths, so
 * that "%.2f" formatting is exact decimal text.
 */
module Psu {
  import opened UsbHost
  import Cdc

  const PsuBufferLength: nat := 15
  /** Capacity of the buffer the status reply is read into. */
  const StatusReplyLength: nat := 10
  /** Number of reply characters `get` parses. */
  const ReplyDigits: nat := 5

  const Nul: byte := 0
  const Point: byte := 0x2E   // '.'
  const Minus: byte := 0x2D   // '-'

  // Channels: "1" to "4"
  const Channel1: seq<byte> := [0x31]
  const Channel2: seq<byte> := [0x32]
  const Channel3: seq<byte> := [0x33]
  const Channel4: seq<byte> := [0x34]

  // Command keywords of the KA3005P command set, in ASCII
  const SettingOutputCurrent: seq<byte> := [0x49, 0x53, 0x45, 0x54]          // "ISET"
  const SettingOutputVoltage: seq<byte> := [0x56, 0x53, 0x45, 0x54]          // "VSET"
  const ActualOutputCurrent: seq<byte> := [0x49, 0x4F, 0x55, 0x54]           // "IOUT"
  const ActualOutputVoltage: seq<byte> := [0x56, 0x4F, 0x55, 0x54]           // "VOUT"
  const SettingBeep: seq<byte> := [0x42, 0x45, 0x45, 0x50]                   // "BEEP"
  const SettingOutput: seq<byte> := [0x4F, 0x55, 0x54]                       // "OUT"
  const Status: seq<byte> := [0x53, 0x54, 0x41, 0x54, 0x55, 0x53]            // "STATUS"
  const Ocp: seq<byte> := [0x4F, 0x43, 0x50]                                 // "OCP"
  const Ovp: seq<byte> := [0x4F, 0x56, 0x50]                                 // "OVP"

  const Keywords: seq<seq<byte>> :=
    [SettingOutputCurrent, SettingOutputVoltage, ActualOutputCurrent, ActualOutputVoltage,
     SettingBeep, SettingOutput, Status, Ocp, Ovp]

  // Command helpers
  const Separator: seq<byte> := [0x3A]   // ":"
  const Getter: seq<byte> := [0x3F]      // "?"

  // Status masks
  const ModeMask: bv8 := 0x01
  const BeepMask: bv8 := 0x10
  const OcpMask: bv8 := 0x20
  const OutputMask: bv8 := 0x40
  const OvpMask: bv8 := 0x80

  function Min(a: int, b: int): int { if a < b then a else b }

  /** The characters of a C string: no NUL among them. */
  predicate NoNul(s: seq<byte>)
  {
    forall i :: 0 <= i < |s| ==> s[i] != Nul
  }

  /** `s[0]` of a C string: its first character, or the terminating NUL when it is empty. */
  function FirstByte(s: seq<byte>): byte
  {
    if s == [] then Nul else s[0]
  }

  function Zeros(n: nat): seq<byte>
  {
    seq(n, _ => Nul)
  }

  /** `strlen`: the number of bytes before the first NUL. */
  function StrLen(s: seq<byte>): (n: nat)
    ensures n <= |s| && NoNul(s[..n])
    ensures n < |s| ==> s[n] == Nul
  {
    if s == [] || s[0] == Nul then 0 else 1 + StrLen(s[1..])
  }

  /** An uppercase ASCII letter. */
  predicate IsLetter(b: byte)
  {
    0x41 <= b <= 0x5A
  }

  /** The shape of every command keyword: three to six uppercase letters. */
  predicate IsKeyword(k: seq<byte>)
  {
    3 <= |k| <= 6 && forall i :: 0 <= i < |k| ==> IsLetter(k[i])
  }

  // ---------------------------------------------------------------------
  // Decimal text
  // ---------------------------------------------------------------------

  predicate IsDigit(b: byte)
  {
    0x30 <= b <= 0x39
  }

  predicate AllDigits(s: seq<byte>)
  {
    forall i :: 0 <= i < |s| ==> IsDigit(s[i])
  }

  function DigitByte(d: nat): (b: byte)
    requires d < 10
    ensures IsDigit(b)
  {
    (0x30 + d) as byte
  }

  function DigitValue(b: byte): (d: nat)
    requires IsDigit(b)
    ensures d < 10 && DigitByte(d) == b
  {
    (b - 0x30) as nat
  }

  /** The decimal numeral of `n`, without leading zeros. */
  function DecimalText(n: nat): (t: seq<byte>)
    ensures |t| >= 1 && AllDigits(t)
  {
    if n < 10 then [DigitByte(n)] else DecimalText(n / 10) + [DigitByte(n % 10)]
  }

  /** The number a string of decimal digits denotes. */
  function DigitsValue(s: seq<byte>): nat
    requires AllDigits(s)
  {
    if s == [] then 0 else DigitsValue(s[..|s| - 1]) * 10 + DigitValue(s[|s| - 1])
  }

  function Pow10(k: nat): (p: nat)
    ensures p >= 1
  {
    if k == 0 then 1 else 10 * Pow10(k - 1)
  }

  /**
   * "%.2f" of `hundredths / 100`: an optional minus sign, the whole part
   * without leading zeros, a point and exactly two fractional digits.
   */
  function FloatText(hundredths: int): (t: seq<byte>)
    ensures |t| >= 4 && t[|t| - 3] == Point
    ensures t[0] == Minus <==> hundredths < 0
  {
    var a := if hundredths < 0 then -hundredths else hundredths;
    var cents := a % 100;
    (if hundredths < 0 then [Minus] else []) + DecimalText(a / 100)
      + [Point, DigitByte(cents / 10), DigitByte(cents % 10)]
  }

  /** The number of leading decimal digits of `s`. */
  function LeadingDigits(s: seq<byte>): (n: nat)
    ensures n <= |s| && AllDigits(s[..n])
    ensures n < |s| ==> !IsDigit(s[n])
  {
    if s == [] || !IsDigit(s[0]) then 0 else 1 + LeadingDigits(s[1..])
  }

  /**
   * `atof` restricted to what a KA3005P reply holds: a run of digits,
   * optionally a point and another run of digits; parsing stops at the first
   * byte that does not fit (a NUL included), and no digits read as 0.
   */
  function Atof(s: seq<byte>): (r: real)
    ensures r >= 0.0
  {
    var n := LeadingDigits(s);
    var whole := DigitsValue(s[..n]) as real;
    if n < |s| && s[n] == Point then
      var m := LeadingDigits(s[n + 1..]);
      whole + FractionValue(s[n + 1..][..m])
    else whole
  }

  /** The value of the digits after a decimal point. */
  function FractionValue(d: seq<byte>): real
    requires AllDigits(d)
  {
    DigitsValue(d) as real / Pow10(|d|) as real
  }

  // ---------------------------------------------------------------------
  // Frames
  // ---------------------------------------------------------------------

  /** A query: keyword, channel digit, '?'. */
  function QueryFrame(command: seq<byte>, channel: seq<byte>): (f: seq<byte>)
    ensures |f| == |command| + 2 && f[..|command|] == command
    ensures f[|command|] == FirstByte(channel) && f[|f| - 1] == 0x3F
  {
    command + [FirstByte(channel), Getter[0]]
  }

  /** A boolean setting: keyword, then '1' or '0'. */
  function BoolFrame(command: seq<byte>, state: bool): (f: seq<byte>)
    ensures |f| == |command| + 1 && f[..|command|] == command
    ensures IsDigit(f[|command|]) && (f[|command|] == 0x31 <==> state)
  {
    command + [if state then DigitByte(1) else DigitByte(0)]
  }

  /** A value setting as meant: keyword, channel digit, ':', two-decimal text. */
  function FloatFrame(command: seq<byte>, channel: seq<byte>, hundredths: int): (f: seq<byte>)
    ensures |f| == FloatSentLength(command, hundredths) && f[..|command|] == command
    ensures f[|command|] == FirstByte(channel) && f[|command| + 1] == 0x3A
    ensures f[|command| + 2..] == FloatText(hundredths)
  {
    command + [FirstByte(channel), Separator[0]] + FloatText(hundredths)
  }

  /** The status query, sent with its terminating NUL (`sizeof` of the literal). */
  function StatusQuery(): seq<byte>
  {
    Status + Getter + [Nul]
  }

  /** What `snprintf` with room for `size` bytes writes of `text`: a cut-short copy and a NUL. */
  function SnprintfOutput(size: nat, text: seq<byte>): seq<byte>
  {
    if size == 0 then [] else text[..Min(|text|, size - 1)] + [Nul]
  }

  /** `snprintf`'s room in `sendFloat`: the buffer less the prefix and one byte. */
  function FloatRoom(command: seq<byte>): int
  {
    PsuBufferLength - (|command| + 2) - 1
  }

  /** The bytes `sendFloat` hands to the transport: `w_ptr - tx_buffer`. */
  function FloatSentLength(command: seq<byte>, hundredths: int): nat
  {
    |command| + 2 + |FloatText(hundredths)|
  }

  /** The 15-byte buffer of `sendFloat` once filled. */
  function FloatBuffer(command: seq<byte>, channel: seq<byte>, hundredths: int): (b: seq<byte>)
    requires |command| + 3 <= PsuBufferLength
    ensures |b| == PsuBufferLength
  {
    var written := command + [FirstByte(channel), Separator[0]] + SnprintfOutput(FloatRoom(command), FloatText(hundredths));
    written + Zeros(PsuBufferLength - |written|)
  }

  /**
   * The bytes `sendFloat` sends: `FloatSentLength` bytes read from its
   * buffer and, when that count exceeds the buffer, the `beyond` bytes that
   * follow it in memory.
   */
  function FloatSent(command: seq<byte>, channel: seq<byte>, hundredths: int, beyond: seq<byte>): seq<byte>
    requires |command| + 3 <= PsuBufferLength
    requires FloatSentLength(command, hundredths) <= PsuBufferLength + |beyond|
  {
    (FloatBuffer(command, channel, hundredths) + beyond)[..FloatSentLength(command, hundredths)]
  }

  /** What `get` returns: 31.0 for a failed send, 32.0 for a failed receive, else the parsed reply. */
  function GetOutcome(sendRc: nat, recvRc: nat, window: seq<byte>): (r: real)
    ensures r >= 0.0
    ensures sendRc != 0 ==> r == 31.0
    ensures sendRc == 0 && recvRc != 0 ==> r == 32.0
  {
    if sendRc != 0 then 31.0 else if recvRc != 0 then 32.0 else Atof(window)
  }

  // ---------------------------------------------------------------------
  // Status register
  // ---------------------------------------------------------------------

  /** Bit `k` of `b`. */
  predicate Bit(b: bv8, k: nat)
    requires k < 8
  {
    (b >> k) & 1 == 1
  }

  /** The five meaningful bits of the status register, by name. */
  datatype StatusFlags = StatusFlags(cv: bool, beep: bool, ocp: bool, output: bool, ovp: bool)

  function Decode(b: bv8): StatusFlags
  {
    StatusFlags(Bit(b, 0), Bit(b, 4), Bit(b, 5), Bit(b, 6), Bit(b, 7))
  }

  function Encode(f: StatusFlags): bv8
  {
    (if f.cv then ModeMask else 0) | (if f.beep then BeepMask else 0) | (if f.ocp then OcpMask else 0)
    | (if f.output then OutputMask else 0) | (if f.ovp then OvpMask else 0)
  }

  // ---------------------------------------------------------------------
  // The C library calls the codec uses
  // ---------------------------------------------------------------------

  /** `strcpy(dst, src)`: the characters of `src` and a NUL at the start of `dst`. */
  method StrCpy(dst: array<byte>, src: seq<byte>)
    requires NoNul(src) && |src| < dst.Length
    modifies dst
    ensures dst[..] == src + [Nul] + old(dst[|src| + 1..])
  {
    forall i | 0 <= i < |src| {
      dst[i] := src[i];
    }
    dst[|src|] := Nul;
  }

  /** `snprintf(dst + at, size, ...)` of the already formatted `text`; returns the untruncated length. */
  method Snprintf(dst: array<byte>, at: nat, size: nat, text: seq<byte>) returns (n: nat)
    requires at + size <= dst.Length
    modifies dst
    ensures n == |text|
    ensures at + |SnprintfOutput(size, text)| <= dst.Length
    ensures dst[..] == old(dst[..at]) + SnprintfOutput(size, text) + old(dst[at + |SnprintfOutput(size, text)|..])
  {
    var out := SnprintfOutput(size, text);
    forall i | 0 <= i < |out| {
      dst[at + i] := out[i];
    }
    n := |text|;
  }

  /**
   * The steps `get` and `sendFloat` share: a zeroed buffer, `strcpy` of the
   * keyword, then the channel's first byte and `marker` written through the
   * advancing write position.
   */
  method WritePrefix(command: seq<byte>, channel: seq<byte>, marker: byte) returns (tx: array<byte>)
    requires NoNul(command) && |command| + 2 <= PsuBufferLength
    ensures fresh(tx)
    ensures tx[..] == command + [FirstByte(channel), marker] + Zeros(PsuBufferLength - |command| - 2)
  {
    tx := new byte[PsuBufferLength](_ => Nul);
    StrCpy(tx, command);
    var w := |command|;
    tx[w] := FirstByte(channel);
    w := w + 1;
    tx[w] := marker;
    w := w + 1;
  }

  /**
   * The first steps of `sendFloat`: copies the keyword, the channel digit and
   * ':' into a zeroed buffer and lets `snprintf` write the value after them;
   * `w` is the write position advanced by `snprintf`'s untruncated count.
   */
  method FillFloatBuffer(command: seq<byte>, channel: seq<byte>, hundredths: int) returns (tx: array<byte>, w: nat)
    requires NoNul(command) && |command| + 3 <= PsuBufferLength
    ensures fresh(tx)
    ensures tx[..] == FloatBuffer(command, channel, hundredths)
    ensures w == FloatSentLength(command, hundredths)
  {
    tx := WritePrefix(command, channel, Separator[0]);
    w := |command| + 2;
    ghost var prefix := command + [FirstByte(channel), Separator[0]];
    var text := FloatText(hundredths);
    ghost var out := SnprintfOutput(FloatRoom(command), text);
    ghost var before := tx[..];
    assert before[..w] == prefix;
    assert |out| <= PsuBufferLength - w;
    assert before[w + |out|..] == Zeros(PsuBufferLength - |prefix + out|);
    var n := Snprintf(tx, w, PsuBufferLength - w - 1, text);
    assert tx[..] == prefix + out + Zeros(PsuBufferLength - |prefix + out|);
    w := w + n;
  }

  class PSU {
    const pCdc: Cdc.CDC
    var status: bv8

    ghost predicate Valid()
      reads this, pCdc
    {
      pCdc.Valid()
    }

    /** A power supply behind an unbound CDC session; the status register is undefined. */
    constructor (usb: Host)
      ensures Valid() && fresh(pCdc) && fresh(pCdc.epInfo) && pCdc.host == usb
      ensures pCdc.bAddress == 0 && pCdc.bNumEP == 1
    {
      pCdc := new Cdc.CDC(usb);
      status := *;
    }

    /** The bulk OUT transfer of `data` through the session. */
    ghost function OutCall(data: seq<byte>, rc: nat): HostCall
      reads this, pCdc, pCdc.epInfo
      requires Valid()
    {
      OutTransfer(pCdc.bAddress, pCdc.epInfo[Cdc.EpDataOutIndex].deviceEpNum, data, rc)
    }

    /** The bulk IN transfer of at most `capacity` bytes through the session. */
    ghost function InCall(capacity: nat, rc: nat, data: seq<byte>): HostCall
      reads this, pCdc, pCdc.epInfo
      requires Valid()
    {
      InTransfer(pCdc.bAddress, pCdc.epInfo[Cdc.EpDataInIndex].deviceEpNum, capacity, rc, data)
    }

    /** The transfers of one `get`: the query, and the read of the reply only if the query went out. */
    ghost function QueryCalls(command: seq<byte>, channel: seq<byte>, sendRc: nat, recvRc: nat, reply: seq<byte>): seq<HostCall>
      reads this, pCdc, pCdc.epInfo
      requires Valid()
    {
      [OutCall(QueryFrame(command, channel), sendRc)]
      + (if sendRc == 0 then [InCall(PsuBufferLength, recvRc, reply)] else [])
    }

    /**
     * Queries `command` on `channel` and parses the first five characters of
     * the reply. `reply` is what the device returned; `window` the five bytes
     * parsed, which agree with the reply as far as it goes and are left-over
     * buffer contents beyond it.
     */
    method Get(command: seq<byte>, channel: seq<byte>)
      returns (r: real, ghost sendRc: nat, ghost recvRc: nat, ghost reply: seq<byte>, ghost window: seq<byte>)
      requires Valid() && NoNul(command) && |command| + 2 <= PsuBufferLength
      modifies pCdc.host`calls
      ensures status == old(status)
      ensures |reply| <= PsuBufferLength && |window| == ReplyDigits
      ensures window[..Min(|reply|, ReplyDigits)] == reply[..Min(|reply|, ReplyDigits)]
      ensures pCdc.host.calls == old(pCdc.host.calls) + QueryCalls(command, channel, sendRc, recvRc, reply)
      ensures r == GetOutcome(sendRc, recvRc, window)
    {
      var tx := WritePrefix(command, channel, Getter[0]);
      var w := |command| + 2;
      assert tx[..w] == QueryFrame(command, channel);
      var rcode := pCdc.SndData(tx[..w]);
      sendRc, recvRc, reply, window := rcode, 0, [], Zeros(ReplyDigits);
      if rcode != 0 {
        r := 31.0;
        return;
      }

      // the reply buffer is not initialised
      var stale: seq<byte> := *;
      var rx := new byte[PsuBufferLength](i => if 0 <= i < |stale| then stale[i] else Nul);
      var rcvd;
      rcode, rcvd := pCdc.RcvData(PsuBufferLength, rx);
      recvRc, reply, window := rcode, rx[..rcvd], rx[..ReplyDigits];
      if rcode != 0 {
        r := 32.0;
        return;
      }
      rx[ReplyDigits] := Nul;
      assert rx[..][..ReplyDigits] == window;
      r := Atof(rx[..]);
      AtofStopsAt(rx[..], ReplyDigits);
    }

    /** Sends `command` followed by '1' or '0'; no reply is read. */
    method SendBool(command: seq<byte>, state: bool) returns (ghost rc: nat)
      requires Valid() && NoNul(command) && |command| + 2 <= PsuBufferLength
      modifies pCdc.host`calls
      ensures status == old(status)
      ensures pCdc.host.calls == old(pCdc.host.calls) + [OutCall(BoolFrame(command, state), rc)]
    {
      var tx := new byte[PsuBufferLength](_ => Nul);
      StrCpy(tx, command);
      tx[|command|] := if state then DigitByte(1) else DigitByte(0);
      var n := StrLen(tx[..]);
      assert tx[..][..|command| + 1] == BoolFrame(command, state);
      assert tx[..][|command| + 1] == Nul;
      StrLenIs(tx[..], |command| + 1);
      rc := pCdc.SndData(tx[..n]);
    }

    /**
     * Sends `command`, the channel digit, ':' and the value in two-decimal
     * text, cut short to what fits the buffer; the count sent is the
     * untruncated one, so `beyond` holds whatever the transport reads past the
     * buffer's end.
     */
    method SendFloat(command: seq<byte>, channel: seq<byte>, hundredths: int)
      returns (ghost rc: nat, ghost beyond: seq<byte>)
      requires Valid() && NoNul(command) && |command| + 3 <= PsuBufferLength
      modifies pCdc.host`calls
      ensures status == old(status)
      ensures |beyond| == if FloatSentLength(command, hundredths) > PsuBufferLength
                          then FloatSentLength(command, hundredths) - PsuBufferLength else 0
      ensures pCdc.host.calls == old(pCdc.host.calls) + [OutCall(FloatSent(command, channel, hundredths, beyond), rc)]
    {
      var tx, w := FillFloatBuffer(command, channel, hundredths);
      ghost var filled := tx[..];
      var sent: seq<byte>;
      if w <= PsuBufferLength {
        beyond := [];
        sent := tx[..w];
        assert sent == (filled + beyond)[..w];
      } else {
        // the transport reads on past the end of tx_buffer
        assert |Zeros(w - PsuBufferLength)| == w - PsuBufferLength;
        var past: seq<byte> :| |past| == w - PsuBufferLength;
        beyond := past;
        sent := tx[..] + past;
        assert sent == (filled + beyond)[..w];
      }
      rc := pCdc.SndData(sent);
    }

    /**
     * Sends "STATUS?" with its NUL, reads up to ten bytes and caches the first
     * byte of the reply buffer as the status register, whatever the transfers
     * returned; with an empty reply that byte is left-over buffer contents.
     */
    method GetStatus() returns (s: bv8, ghost sendRc: nat, ghost recvRc: nat, ghost reply: seq<byte>)
      requires Valid()
      modifies this`status, pCdc.host`calls
      ensures Valid() && s == status
      ensures |reply| <= StatusReplyLength
      ensures pCdc.host.calls == old(pCdc.host.calls) + [OutCall(StatusQuery(), sendRc), InCall(StatusReplyLength, recvRc, reply)]
      ensures reply != [] ==> status == reply[0] as bv8
    {
      sendRc := pCdc.SndData(StatusQuery());
      var stale: seq<byte> := *;
      var rx := new byte[StatusReplyLength](i => if 0 <= i < |stale| then stale[i] else Nul);
      var rcvd;
      recvRc, rcvd := pCdc.RcvData(StatusReplyLength, rx);
      reply := rx[..rcvd];
      status := rx[0] as bv8;
      s := status;
    }

    function IsCVMode(): (r: bool)
      reads this
      ensures r <==> Bit(status, 0)
    {
      status & ModeMask != 0
    }

    function IsCCMode(): (r: bool)
      reads this
      ensures r <==> !Bit(status, 0)
    {
      !IsCVMode()
    }

    function IsBeepOn(): (r: bool)
      reads this
      ensures r <==> Bit(status, 4)
    {
      status & BeepMask != 0
    }

    function IsOCPOn(): (r: bool)
      reads this
      ensures r <==> Bit(status, 5)
    {
      status & OcpMask != 0
    }

    function IsOutputOn(): (r: bool)
      reads this
      ensures r <==> Bit(status, 6)
    {
      status & OutputMask != 0
    }

    function IsOVPOn(): (r: bool)
      reads this
      ensures r <==> Bit(status, 7)
    {
      status & OvpMask != 0
    }

    // Public get/set operations

    method SetOCP(state: bool) returns (ghost rc: nat)
      requires Valid()
      modifies pCdc.host`calls
      ensures status == old(status)
      ensures pCdc.host.calls == old(pCdc.host.calls) + [OutCall(BoolFrame(Ocp, state), rc)]
    {
      rc := SendBool(Ocp, state);
    }

    method SetOutput(state: bool) returns (ghost rc: nat)
      requires Valid()
      modifies pCdc.host`calls
      ensures status == old(status)
      ensures pCdc.host.calls == old(pCdc.host.calls) + [OutCall(BoolFrame(SettingOutput, state), rc)]
    {
      rc := SendBool(SettingOutput, state);
    }

    method SetOVP(state: bool) returns (ghost rc: nat)
      requires Valid()
      modifies pCdc.host`calls
      ensures status == old(status)
      ensures pCdc.host.calls == old(pCdc.host.calls) + [OutCall(BoolFrame(Ovp, state), rc)]
    {
      rc := SendBool(Ovp, state);
    }

    method SetBeep(state: bool) returns (ghost rc: nat)
      requires Valid()
      modifies pCdc.host`calls
      ensures status == old(status)
      ensures pCdc.host.calls == old(pCdc.host.calls) + [OutCall(BoolFrame(SettingBeep, state), rc)]
    {
      rc := SendBool(SettingBeep, state);
    }

    method SetCurrent(channel: seq<byte>, hundredths: int) returns (ghost rc: nat, ghost beyond: seq<byte>)
      requires Valid()
      modifies pCdc.host`calls
      ensures status == old(status)
      ensures FloatSentLength(SettingOutputCurrent, hundredths) <= PsuBufferLength + |beyond|
      ensures pCdc.host.calls == old(pCdc.host.calls) + [OutCall(FloatSent(SettingOutputCurrent, channel, hundredths, beyond), rc)]
    {
      rc, beyond := SendFloat(SettingOutputCurrent, channel, hundredths);
    }

    method SetVoltage(channel: seq<byte>, hundredths: int) returns (ghost rc: nat, ghost beyond: seq<byte>)
      requires Valid()
      modifies pCdc.host`calls
      ensures status == old(status)
      ensures FloatSentLength(SettingOutputVoltage, hundredths) <= PsuBufferLength + |beyond|
      ensures pCdc.host.calls == old(pCdc.host.calls) + [OutCall(FloatSent(SettingOutputVoltage, channel, hundredths, beyond), rc)]
    {
      rc, beyond := SendFloat(SettingOutputVoltage, channel, hundredths);
    }

    method GetActualCurrent(channel: seq<byte>)
      returns (r: real, ghost sendRc: nat, ghost recvRc: nat, ghost reply: seq<byte>, ghost window: seq<byte>)
      requires Valid()
      modifies pCdc.host`calls
      ensures status == old(status) && |window| == ReplyDigits
      ensures window[..Min(|reply|, ReplyDigits)] == reply[..Min(|reply|, ReplyDigits)]
      ensures pCdc.host.calls == old(pCdc.host.calls) + QueryCalls(ActualOutputCurrent, channel, sendRc, recvRc, reply)
      ensures r == GetOutcome(sendRc, recvRc, window)
    {
      r, sendRc, recvRc, reply, window := Get(ActualOutputCurrent, channel);
    }

    method GetActualVoltage(channel: seq<byte>)
      returns (r: real, ghost sendRc: nat, ghost recvRc: nat, ghost reply: seq<byte>, ghost window: seq<byte>)
      requires Valid()
      modifies pCdc.host`calls
      ensures status == old(status) && |window| == ReplyDigits
      ensures window[..Min(|reply|, ReplyDigits)] == reply[..Min(|reply|, ReplyDigits)]
      ensures pCdc.host.calls == old(pCdc.host.calls) + QueryCalls(ActualOutputVoltage, channel, sendRc, recvRc, reply)
      ensures r == GetOutcome(sendRc, recvRc, window)
    {
      r, sendRc, recvRc, reply, window := Get(ActualOutputVoltage, channel);
    }

    method GetCurrent(channel: seq<byte>)
      returns (r: real, ghost sendRc: nat, ghost recvRc: nat, ghost reply: seq<byte>, ghost window: seq<byte>)
      requires Valid()
      modifies pCdc.host`calls
      ensures status == old(status) && |window| == ReplyDigits
      ensures window[..Min(|reply|, ReplyDigits)] == reply[..Min(|reply|, ReplyDigits)]
      ensures pCdc.host.calls == old(pCdc.host.calls) + QueryCalls(SettingOutputCurrent, channel, sendRc, recvRc, reply)
      ensures r == GetOutcome(sendRc, recvRc, window)
    {
      r, sendRc, recvRc, reply, window := Get(SettingOutputCurrent, channel);
    }

    method GetVoltage(channel: seq<byte>)
      returns (r: real, ghost sendRc: nat, ghost recvRc: nat, ghost reply: seq<byte>, ghost window: seq<byte>)
      requires Valid()
      modifies pCdc.host`calls
      ensures status == old(status) && |window| == ReplyDigits
      ensures window[..Min(|reply|, ReplyDigits)] == reply[..Min(|reply|, ReplyDigits)]
      ensures pCdc.host.calls == old(pCdc.host.calls) + QueryCalls(SettingOutputVoltage, channel, sendRc, recvRc, reply)
      ensures r == GetOutcome(sendRc, recvRc, window)
    {
      r, sendRc, recvRc, reply, window := Get(SettingOutputVoltage, channel);
    }
  }

  // ---------------------------------------------------------------------
  // Properties
  // ---------------------------------------------------------------------

  /** `strlen` finds the first NUL. */
  lemma StrLenIs(s: seq<byte>, n: nat)
    requires n < |s| && NoNul(s[..n]) && s[n] == Nul
    ensures StrLen(s) == n
  {
  }

  /** Every keyword of the command set is three to six uppercase letters, so a NUL-free C string. */
  lemma KeywordsWellFormed()
    ensures forall k :: k in Keywords ==> IsKeyword(k) && NoNul(k)
  {
  }

  /** The digit count of `s` is already decided before its first non-digit. */
  lemma LeadingDigitsCut(s: seq<byte>, k: nat)
    requires k < |s| && !IsDigit(s[k])
    ensures LeadingDigits(s[..k]) == LeadingDigits(s)
  {
    var n := LeadingDigits(s);
    assert forall i :: 0 <= i < n ==> IsDigit(s[i]) by {
      assert forall i :: 0 <= i < n ==> s[..n][i] == s[i];
    }
    assert n <= k;
    var p := s[..n];
    assert s[..k] == p + s[n..k];
    LeadingDigitsOfRun(p, s[n..k]);
  }

  /** `atof` stops at a byte that is neither a digit nor the point, such as the NUL `get` writes. */
  lemma AtofStopsAt(s: seq<byte>, k: nat)
    requires k < |s| && !IsDigit(s[k]) && s[k] != Point
    ensures Atof(s) == Atof(s[..k])
  {
    LeadingDigitsCut(s, k);
    var n := LeadingDigits(s);
    assert s[..k][..n] == s[..n];
    if n < k && s[n] == Point {
      assert s[..k][n + 1..] == s[n + 1..][..k - n - 1];
      LeadingDigitsCut(s[n + 1..], k - n - 1);
      var m := LeadingDigits(s[n + 1..]);
      assert s[..k][n + 1..][..m] == s[n + 1..][..m];
    }
  }

  // Decimal text and its parse

  lemma DigitRoundTrip(d: nat)
    requires d < 10
    ensures DigitValue(DigitByte(d)) == d
  {
  }

  lemma TwoDigitsValue(d1: nat, d2: nat)
    requires d1 < 10 && d2 < 10
    ensures DigitsValue([DigitByte(d1), DigitByte(d2)]) == 10 * d1 + d2
  {
    var s := [DigitByte(d1), DigitByte(d2)];
    DigitRoundTrip(d1);
    DigitRoundTrip(d2);
    assert s[..1] == [DigitByte(d1)] && s[..1][..0] == [];
    assert DigitsValue(s[..1]) == DigitsValue(s[..1][..0]) * 10 + DigitValue(s[..1][0]) == d1;
    assert DigitsValue(s) == DigitsValue(s[..1]) * 10 + DigitValue(s[1]);
  }

  lemma {:induction false} DecimalTextValue(n: nat)
    ensures DigitsValue(DecimalText(n)) == n
  {
    if n >= 10 {
      var t := DecimalText(n / 10);
      var d := DigitByte(n % 10);
      DecimalTextValue(n / 10);
      DigitRoundTrip(n % 10);
      var s := t + [d];
      assert s[..|s| - 1] == t && s[|s| - 1] == d;
      assert DigitsValue(s) == DigitsValue(t) * 10 + DigitValue(d);
    } else {
      DigitRoundTrip(n);
      assert [DigitByte(n)][..0] == [];
    }
  }

  /** The numeral of `n` has at most `k` digits exactly when `n < 10^k`. */
  lemma {:induction false} DecimalTextLength(n: nat, k: nat)
    requires k >= 1
    ensures |DecimalText(n)| <= k <==> n < Pow10(k)
  {
    if n >= 10 && k > 1 {
      DecimalTextLength(n / 10, k - 1);
    }
  }

  /** A run of digits followed by a non-digit (or nothing) is read in full. */
  lemma LeadingDigitsOfRun(p: seq<byte>, rest: seq<byte>)
    requires AllDigits(p) && (rest == [] || !IsDigit(rest[0]))
    ensures LeadingDigits(p + rest) == |p|
  {
    var s := p + rest;
    assert forall i :: 0 <= i < |p| ==> s[i] == p[i];
    assert |p| < |s| ==> s[|p|] == rest[0];
  }

  /**
   * "%.2f" text has exactly two fractional digits: one point, third from the
   * end, digits everywhere else except a leading minus sign for a negative
   * value.
   */
  lemma FloatTextShape(h: int)
    ensures var t := FloatText(h);
      |t| >= 4 && t[|t| - 3] == Point && IsDigit(t[|t| - 2]) && IsDigit(t[|t| - 1])
      && (t[0] == Minus <==> h < 0)
      && forall i :: (if h < 0 then 1 else 0) <= i < |t| - 3 ==> IsDigit(t[i])
  {
  }

  /** The two-decimal text of a value below 100.00 fits the five characters `get` parses, and only then. */
  lemma FloatTextFitsReply(h: nat)
    ensures |FloatText(h)| <= ReplyDigits <==> h < 10000
  {
    DecimalTextLength(h / 100, 2);
  }

  /** In a numeral with a point, the leading digits are the whole part and the point follows them. */
  lemma SplitAtPoint(whole: seq<byte>, rest: seq<byte>)
    requires AllDigits(whole)
    ensures var s := whole + [Point] + rest;
      LeadingDigits(s) == |whole| && s[..|whole|] == whole && s[|whole|] == Point && s[|whole| + 1..] == rest
  {
    var s := whole + [Point] + rest;
    assert s == whole + ([Point] + rest);
    LeadingDigitsOfRun(whole, [Point] + rest);
  }

  /** A numeral with a point reads as its whole part plus its fraction, up to a following non-digit. */
  lemma ParseNumeral(whole: seq<byte>, frac: seq<byte>, tail: seq<byte>)
    requires AllDigits(whole) && AllDigits(frac) && (tail == [] || !IsDigit(tail[0]))
    ensures Atof(whole + [Point] + frac + tail) == DigitsValue(whole) as real + FractionValue(frac)
  {
    var rest := frac + tail;
    var s := whole + [Point] + rest;
    assert s == whole + [Point] + frac + tail;
    SplitAtPoint(whole, rest);
    LeadingDigitsOfRun(frac, tail);
    assert rest[..|frac|] == frac;
    assert s[..|whole|] == whole && s[|whole| + 1..][..|frac|] == frac;
  }

  /** Whole hundredths over 100 as a whole part plus cents. */
  lemma HundredthsReal(q: nat, cents: nat)
    requires cents < 100
    ensures q as real + cents as real / 100.0 == (100 * q + cents) as real / 100.0
  {
  }

  /** Parsing two-decimal text gives back the value, whatever non-digit follows it. */
  lemma ParseFloatText(h: nat, tail: seq<byte>)
    requires tail == [] || !IsDigit(tail[0])
    ensures Atof(FloatText(h) + tail) == h as real / 100.0
  {
    var q, cents := h / 100, h % 100;
    var whole := DecimalText(q);
    var frac := [DigitByte(cents / 10), DigitByte(cents % 10)];
    assert FloatText(h) == whole + [Point] + frac;
    ParseNumeral(whole, frac, tail);
    DecimalTextValue(q);
    TwoDigitsValue(cents / 10, cents % 10);
    assert Pow10(|frac|) == 100;
    assert FractionValue(frac) == cents as real / 100.0;
    HundredthsReal(q, cents);
  }

  /**
   * A reply that starts with the two-decimal text of a value below 100.00
   * reads back as that value, as long as a text shorter than five characters
   * is followed by a non-digit; below 31.00 it differs from both error
   * values.
   */
  lemma ReplyRoundTrip(h: nat, tail: seq<byte>)
    requires h < 10000 && |FloatText(h)| + |tail| >= ReplyDigits
    requires |FloatText(h)| < ReplyDigits ==> !IsDigit(tail[0])
    ensures GetOutcome(0, 0, (FloatText(h) + tail)[..ReplyDigits]) == h as real / 100.0
    ensures h < 3100 ==> GetOutcome(0, 0, (FloatText(h) + tail)[..ReplyDigits]) !in {31.0, 32.0}
  {
    var t := FloatText(h);
    FloatTextFitsReply(h);
    var cut := tail[..ReplyDigits - |t|];
    assert (t + tail)[..ReplyDigits] == t + cut;
    ParseFloatText(h, cut);
  }

  /** Only five characters are parsed: 123.45 reads back as 123.4. */
  lemma ReplyCutAtFive()
    ensures GetOutcome(0, 0, FloatText(12345)[..ReplyDigits]) == 123.4
  {
    var t := FloatText(12345);
    assert t == DecimalText(123) + [Point, DigitByte(4), DigitByte(5)];
    assert DecimalText(123) == [DigitByte(1), DigitByte(2), DigitByte(3)];
    var w := t[..ReplyDigits];
    assert w == DecimalText(123) + [Point, DigitByte(4)];
    LeadingDigitsOfRun(DecimalText(123), [Point, DigitByte(4)]);
    DecimalTextValue(123);
    assert w[..3] == DecimalText(123);
    assert w[4..] == [DigitByte(4)];
    LeadingDigitsOfRun([DigitByte(4)], []);
    assert [DigitByte(4)][..1] == [DigitByte(4)];
    assert DigitsValue([DigitByte(4)]) == 4;
  }

  /** The error values lie inside the range of replies: a reply of "31.00" reads like a failed send. */
  lemma SentinelsAmbiguous(sendRc: nat, recvRc: nat, window: seq<byte>)
    requires sendRc != 0
    ensures GetOutcome(sendRc, recvRc, window) == GetOutcome(0, 0, FloatText(3100))
    ensures GetOutcome(0, 1, window) == GetOutcome(0, 0, FloatText(3200))
  {
    ParseFloatText(3100, []);
    ParseFloatText(3200, []);
    assert FloatText(3100) + [] == FloatText(3100);
    assert FloatText(3200) + [] == FloatText(3200);
  }

  // Frames

  /** Query and boolean frames of every keyword fit the 15-byte buffer with room to spare. */
  lemma FramesFit(k: seq<byte>, channel: seq<byte>, state: bool)
    requires IsKeyword(k)
    ensures |QueryFrame(k, channel)| == |k| + 2 <= 8 < PsuBufferLength
    ensures |BoolFrame(k, state)| == |k| + 1 <= 7
  {
  }

  /** A boolean frame ends in '1' or '0' as the state says, so distinct states give distinct frames. */
  lemma BoolFrameState(k: seq<byte>, s: bool, t: bool)
    ensures BoolFrame(k, s)[..|k|] == k
    ensures BoolFrame(k, s)[|k|] == if s then 0x31 else 0x30
    ensures BoolFrame(k, s) == BoolFrame(k, t) <==> s == t
  {
    if BoolFrame(k, s) == BoolFrame(k, t) {
      assert BoolFrame(k, s)[|k|] == BoolFrame(k, t)[|k|];
    }
  }

  /**
   * '?' marks a query and ':' a value setting: a query frame ends in '?',
   * a value frame has ':' after the channel and ends in a digit, and a
   * boolean frame of a keyword holds neither marker.
   */
  lemma FrameMarkers(k: seq<byte>, channel: seq<byte>, h: int, state: bool)
    requires IsKeyword(k)
    ensures var q := QueryFrame(k, channel); q[|q| - 1] == 0x3F
    ensures var f := FloatFrame(k, channel, h); f[|k| + 1] == 0x3A && IsDigit(f[|f| - 1])
    ensures forall i :: 0 <= i < |BoolFrame(k, state)| ==> BoolFrame(k, state)[i] !in {0x3A, 0x3F}
    ensures forall k2, ch2 :: QueryFrame(k2, ch2) != FloatFrame(k, channel, h)
  {
    FloatTextShape(h);
  }

  /** The status query is "STATUS?" and its NUL: eight bytes. */
  lemma StatusQueryBytes()
    ensures |StatusQuery()| == 8 && StatusQuery()[6] == 0x3F && StatusQuery()[7] == Nul
  {
  }

  /** Channel constants are the single ASCII digits '1' to '4', framed by their first byte. */
  lemma ChannelsAreDigits()
    ensures forall c :: c in [Channel1, Channel2, Channel3, Channel4] ==>
      |c| == 1 && IsDigit(c[0]) && 0x31 <= c[0] <= 0x34 && FirstByte(c) == c[0]
  {
  }

  /**
   * When its text is not cut short (the whole frame within 13 bytes),
   * `sendFloat` sends exactly the frame meant, and reads nothing past its
   * buffer.
   */
  lemma FloatSentExact(command: seq<byte>, channel: seq<byte>, h: int, beyond: seq<byte>)
    requires |command| + 3 <= PsuBufferLength && FloatSentLength(command, h) <= PsuBufferLength - 2
    ensures FloatSent(command, channel, h, beyond) == FloatFrame(command, channel, h)
  {
    var t := FloatText(h);
    assert SnprintfOutput(FloatRoom(command), t) == t + [Nul];
  }

  /**
   * Set points from 0.00 to 9999.99 give exact ISET/VSET frames of at most
   * 13 bytes.
   */
  lemma SetpointFramesExact(channel: seq<byte>, h: nat, beyond: seq<byte>)
    requires h < 1000000
    ensures FloatSentLength(SettingOutputCurrent, h) <= 13 && FloatSentLength(SettingOutputVoltage, h) <= 13
    ensures FloatSent(SettingOutputCurrent, channel, h, beyond) == FloatFrame(SettingOutputCurrent, channel, h)
    ensures FloatSent(SettingOutputVoltage, channel, h, beyond) == FloatFrame(SettingOutputVoltage, channel, h)
  {
    DecimalTextLength(h / 100, 4);
    FloatSentExact(SettingOutputCurrent, channel, h, beyond);
    FloatSentExact(SettingOutputVoltage, channel, h, beyond);
  }

  /**
   * A set point of 1000000.00 has ten characters of text: `sendFloat` writes
   * seven of them but asks the transport for 16 bytes, one past its buffer.
   */
  lemma FloatOverRead()
    ensures FloatSentLength(SettingOutputCurrent, 100000000) == PsuBufferLength + 1
  {
    DecimalTextLength(1000000, 7);
    DecimalTextLength(1000000, 6);
  }

  // Status register

  /** The five masks are single bits 0, 4, 5, 6 and 7, and no two overlap. */
  lemma MasksAreBits()
    ensures ModeMask == 1 << 0 && BeepMask == 1 << 4 && OcpMask == 1 << 5 && OutputMask == 1 << 6 && OvpMask == 1 << 7
    ensures forall m1, m2 ::
      (m1 in [ModeMask, BeepMask, OcpMask, OutputMask, OvpMask] && m2 in [ModeMask, BeepMask, OcpMask, OutputMask, OvpMask] && m1 != m2)
      ==> m1 & m2 == 0
  {
  }

  /** Decoding an encoded set of flags gives the flags back. */
  lemma DecodeEncode(f: StatusFlags)
    ensures Decode(Encode(f)) == f
  {
  }

  /** Encoding the decoded flags keeps exactly the five meaningful bits. */
  lemma EncodeDecode(b: bv8)
    ensures Encode(Decode(b)) == b & 0xF1
  {
  }

  /** Bits 1 to 3 affect no flag. */
  lemma ReservedBitsIgnored(b: bv8, x: bv8)
    ensures Decode(b) == Decode((b & 0xF1) | (x & 0x0E))
  {
  }

  /** 0xD1: constant voltage, beep, output and OVP on; OCP off. */
  lemma StatusD1()
    ensures Decode(0xD1) == StatusFlags(true, true, false, true, true)
  {
  }

  /** Each predicate reads one flag of the decoded register, and CC is the negation of CV. */
  lemma PredicatesDecode(p: PSU)
    ensures p.IsCVMode() == Decode(p.status).cv && p.IsCCMode() == !Decode(p.status).cv
    ensures p.IsBeepOn() == Decode(p.status).beep && p.IsOCPOn() == Decode(p.status).ocp
    ensures p.IsOutputOn() == Decode(p.status).output && p.IsOVPOn() == Decode(p.status).ovp
  {
  }
}
