/** The portal's wire protocol as implemented by `Dimensions` in
    musicfig/lego.py: the three pad-colour command builders, the checksummed
    zero-padded message `send_command` writes, and `get_tag_event`, which turns
    an inbound packet into a tag event or nothing. */
module Codec {
  import opened Values
  import opened Colors

  type byte = x: int | 0 <= x < 256

  const MESSAGE_LENGTH: nat := 32
  const COMMAND_MARKER: byte := 0x55
  const EVENT_MARKER: byte := 0x56

  predicate AllBytes(s: seq<int>) {
    forall i :: 0 <= i < |s| ==> 0 <= s[i] < 256
  }

  // ---------------------------------------------------------------------
  // send_command
  // ---------------------------------------------------------------------

  /** One step of the checksum loop: add, then subtract 256 once on overflow. */
  function ChecksumStep(acc: int, word: int): int {
    if acc + word >= 256 then acc + word - 256 else acc + word
  }

  /** The checksum accumulated over `command`, left to right. */
  function Checksum(command: seq<int>): int {
    if |command| == 0 then 0
    else ChecksumStep(Checksum(command[..|command| - 1]), command[|command| - 1])
  }

  function Sum(s: seq<int>): int {
    if |s| == 0 then 0 else Sum(s[..|s| - 1]) + s[|s| - 1]
  }

  /** For a command made of bytes, the subtract-once checksum is the byte sum modulo 256. */
  lemma {:induction false} ChecksumIsSumModulo(command: seq<int>)
    requires AllBytes(command)
    ensures Checksum(command) == Sum(command) % 256
    ensures 0 <= Checksum(command) < 256
  {
    if |command| > 0 {
      var init := command[..|command| - 1];
      assert AllBytes(init) by {
        forall i | 0 <= i < |init| ensures 0 <= init[i] < 256 {
          assert init[i] == command[i];
        }
      }
      ChecksumIsSumModulo(init);
    }
  }

  function Zeros(n: nat): (z: seq<int>)
    ensures |z| == n
    ensures forall i :: 0 <= i < n ==> z[i] == 0
  {
    if n == 0 then [] else Zeros(n - 1) + [0]
  }

  /** The message `send_command` writes for `command`: the command, its
      checksum, then zeros up to 32 bytes. Nothing is truncated, and an empty
      command never binds the message, so Python raises UnboundLocalError. */
  function Message(command: seq<int>): (r: Result<seq<int>>)
    ensures r.Err? <==> |command| == 0
    ensures r.Err? ==> r.error == UnboundLocalError
    ensures r.Ok? ==> |r.value| == if |command| < MESSAGE_LENGTH then MESSAGE_LENGTH else |command| + 1
    ensures r.Ok? ==> r.value[..|command|] == command && r.value[|command|] == Checksum(command)
    ensures r.Ok? ==> forall i :: |command| < i < |r.value| ==> r.value[i] == 0
  {
    if |command| == 0 then Err(UnboundLocalError)
    else
      var m := command + [Checksum(command)];
      var padded := m + Zeros(if |m| < MESSAGE_LENGTH then MESSAGE_LENGTH - |m| else 0);
      assert padded[..|command|] == command;
      Ok(padded)
  }

  /** `send_command` step by step: the running checksum, the message rebuilt
      inside the loop, then zero padding. */
  method SendCommand(command: seq<int>) returns (message: Result<seq<int>>)
    ensures message == Message(command)
  {
    var checksum := 0;
    var bound := false;
    var msg: seq<int> := [];
    var i := 0;
    while i < |command|
      invariant 0 <= i <= |command|
      invariant checksum == Checksum(command[..i])
      invariant bound <==> i > 0
      invariant bound ==> msg == command + [checksum]
    {
      assert command[..i + 1][..i] == command[..i];
      checksum := ChecksumStep(checksum, command[i]);
      msg := command + [checksum];
      bound := true;
      i := i + 1;
    }
    if !bound {
      return Err(UnboundLocalError);
    }
    assert command[..|command|] == command;
    var prefix := msg;
    while |msg| < MESSAGE_LENGTH
      invariant |prefix| <= |msg|
      invariant |msg| <= if |prefix| < MESSAGE_LENGTH then MESSAGE_LENGTH else |prefix|
      invariant msg == prefix + Zeros(|msg| - |prefix|)
      decreases MESSAGE_LENGTH - |msg|
    {
      msg := msg + [0];
    }
    message := Ok(msg);
  }

  /** For a command of at most 31 bytes the message is exactly 32 bytes and
      the byte after the command is the byte sum modulo 256. */
  lemma MessageShape(command: seq<int>)
    requires 0 < |command| < MESSAGE_LENGTH && AllBytes(command)
    ensures Message(command).Ok?
    ensures |Message(command).value| == MESSAGE_LENGTH
    ensures Message(command).value[|command|] == Sum(command) % 256
  {
    ChecksumIsSumModulo(command);
  }

  // ---------------------------------------------------------------------
  // Pad-colour commands
  // ---------------------------------------------------------------------

  datatype Command =
    | ChangeColor(pad: int, color: Color)
    | FadeColor(pad: int, pulseTime: int, pulseCount: int, color: Color)
    | FlashColor(pad: int, onLength: int, offLength: int, pulseCount: int, color: Color)

  /** The bytes each builder hands to `send_command`. The flash builder
      writes the green channel where blue belongs. */
  function Encode(c: Command): seq<int> {
    match c
    case ChangeColor(pad, color) =>
      [0x55, 0x06, 0xC0, 0x02, pad, color.r, color.g, color.b]
    case FadeColor(pad, time, count, color) =>
      [0x55, 0x08, 0xC2, 0x0F, pad, time, count, color.r, color.g, color.b]
    case FlashColor(pad, on, off, count, color) =>
      [0x55, 0x09, 0xC3, 0x03, pad, on, off, count, color.r, color.g, color.g]
  }

  /** The flash encoding with the blue channel in the last colour byte. */
  function EncodeIntended(c: Command): seq<int> {
    match c
    case FlashColor(pad, on, off, count, color) =>
      [0x55, 0x09, 0xC3, 0x03, pad, on, off, count, color.r, color.g, color.b]
    case _ => Encode(c)
  }

  /** The message written to the device for a command. */
  function Frame(c: Command): seq<int> {
    Message(Encode(c)).value
  }

  function FrameIntended(c: Command): seq<int> {
    Message(EncodeIntended(c)).value
  }

  predicate IsByte(x: int) {
    0 <= x < 256
  }

  predicate ColorBytes(c: Color) {
    IsByte(c.r) && IsByte(c.g) && IsByte(c.b)
  }

  /** Every parameter of the command fits in a byte. */
  predicate ByteParameters(c: Command) {
    match c
    case ChangeColor(pad, color) => IsByte(pad) && ColorBytes(color)
    case FadeColor(pad, time, count, color) =>
      IsByte(pad) && IsByte(time) && IsByte(count) && ColorBytes(color)
    case FlashColor(pad, on, off, count, color) =>
      IsByte(pad) && IsByte(on) && IsByte(off) && IsByte(count) && ColorBytes(color)
  }

  /** How the portal reads a 32-byte command message: marker 0x55, a payload
      length, the payload, a checksum equal to the byte sum of everything
      before it modulo 256, then zeros. */
  function ParseFrame(frame: seq<int>): Option<Command> {
    if |frame| != MESSAGE_LENGTH || frame[0] != 0x55 || !(0 <= frame[1] <= 9) then None
    else
      var n := 2 + frame[1];
      if frame[n] != Sum(frame[..n]) % 256 || frame[n + 1..] != Zeros(MESSAGE_LENGTH - n - 1) then None
      else if frame[1] == 6 && frame[2] == 0xC0 && frame[3] == 0x02 then
        Some(ChangeColor(frame[4], Color(frame[5], frame[6], frame[7])))
      else if frame[1] == 8 && frame[2] == 0xC2 && frame[3] == 0x0F then
        Some(FadeColor(frame[4], frame[5], frame[6], Color(frame[7], frame[8], frame[9])))
      else if frame[1] == 9 && frame[2] == 0xC3 && frame[3] == 0x03 then
        Some(FlashColor(frame[4], frame[5], frame[6], frame[7], Color(frame[8], frame[9], frame[10])))
      else None
  }

  /** The command the portal actually receives from a builder call. */
  function AsTransmitted(c: Command): Command {
    match c
    case FlashColor(pad, on, off, count, color) =>
      FlashColor(pad, on, off, count, Color(color.r, color.g, color.g))
    case _ => c
  }

  lemma EncodeIsByteCommand(c: Command, bytes: seq<int>)
    requires ByteParameters(c)
    requires bytes == Encode(c) || bytes == EncodeIntended(c)
    ensures AllBytes(bytes) && 8 <= |bytes| <= 11 && bytes[1] == |bytes| - 2
  {
  }

  lemma FrameFacts(bytes: seq<int>)
    requires AllBytes(bytes) && 0 < |bytes| < MESSAGE_LENGTH
    ensures Message(bytes).Ok?
    ensures var f := Message(bytes).value;
      |f| == MESSAGE_LENGTH && f[..|bytes|] == bytes && f[|bytes|] == Sum(bytes) % 256
      && f[|bytes| + 1..] == Zeros(MESSAGE_LENGTH - |bytes| - 1)
  {
    MessageShape(bytes);
    var f := Message(bytes).value;
    assert f[|bytes| + 1..] == Zeros(MESSAGE_LENGTH - |bytes| - 1);
  }

  /** Every builder yields a 32-byte message the portal reads back as the
      command it was given, except that a flash arrives with green in place of blue. */
  lemma {:induction false} FrameRoundTrip(c: Command)
    requires ByteParameters(c)
    ensures |Frame(c)| == MESSAGE_LENGTH
    ensures ParseFrame(Frame(c)) == Some(AsTransmitted(c))
  {
    var bytes := Encode(c);
    EncodeIsByteCommand(c, bytes);
    FrameFacts(bytes);
  }

  /** The flash as written loses its blue channel whenever it differs from green. */
  lemma FlashDropsBlue(pad: byte, on: byte, off: byte, count: byte, color: Color)
    requires ColorBytes(color) && color.b != color.g
    ensures ParseFrame(Frame(FlashColor(pad, on, off, count, color))) != Some(FlashColor(pad, on, off, count, color))
  {
    FrameRoundTrip(FlashColor(pad, on, off, count, color));
  }

  /** With blue in the last colour byte every command survives the trip unchanged. */
  lemma {:induction false} IntendedFrameRoundTrip(c: Command)
    requires ByteParameters(c)
    ensures |FrameIntended(c)| == MESSAGE_LENGTH
    ensures ParseFrame(FrameIntended(c)) == Some(c)
  {
    var bytes := EncodeIntended(c);
    EncodeIsByteCommand(c, bytes);
    FrameFacts(bytes);
  }

  // ---------------------------------------------------------------------
  // get_tag_event
  // ---------------------------------------------------------------------

  /** A tag placed on (or lifted from) a pad. */
  datatype TagEvent = TagEvent(wasRemoved: bool, padNum: byte, identifier: string)

  predicate IsHexChar(c: char) {
    '0' <= c <= '9' || 'a' <= c <= 'f'
  }

  /** The lower-case hex digit for a nibble. */
  function HexDigit(d: int): (c: char)
    requires 0 <= d < 16
    ensures IsHexChar(c)
  {
    if d < 10 then ('0' as int + d) as char else ('a' as int + d - 10) as char
  }

  /** `binascii.hexlify(...).decode()`: two lower-case digits per byte. */
  function Hex(bytes: seq<byte>): (s: string)
    ensures |s| == 2 * |bytes|
    ensures forall i :: 0 <= i < |s| ==> IsHexChar(s[i])
  {
    if |bytes| == 0 then ""
    else [HexDigit(bytes[0] / 16), HexDigit(bytes[0] % 16)] + Hex(bytes[1..])
  }

  function HexValue(c: char): (v: int)
    requires IsHexChar(c)
    ensures 0 <= v < 16 && HexDigit(v) == c
  {
    if '0' <= c <= '9' then c as int - '0' as int else c as int - 'a' as int + 10
  }

  /** Reads a hex string back into bytes. */
  function Unhex(s: string): Option<seq<byte>> {
    if |s| == 0 then Some([])
    else if |s| == 1 || !IsHexChar(s[0]) || !IsHexChar(s[1]) then None
    else
      match Unhex(s[2..])
      case None => None
      case Some(rest) => Some([HexValue(s[0]) * 16 + HexValue(s[1])] + rest)
  }

  lemma HexDigitInverse(d: int)
    requires 0 <= d < 16
    ensures HexValue(HexDigit(d)) == d
  {
  }

  lemma {:induction false} HexRoundTrip(bytes: seq<byte>)
    ensures Unhex(Hex(bytes)) == Some(bytes)
  {
    if |bytes| > 0 {
      var s := Hex(bytes);
      assert s[2..] == Hex(bytes[1..]);
      HexRoundTrip(bytes[1..]);
      HexDigitInverse(bytes[0] / 16);
      HexDigitInverse(bytes[0] % 16);
      assert [bytes[0]] + bytes[1..] == bytes;
    }
  }

  lemma {:induction false} HexAppend(a: seq<byte>, b: seq<byte>)
    ensures Hex(a + b) == Hex(a) + Hex(b)
  {
    if |a| > 0 {
      assert (a + b)[1..] == a[1..] + b;
      HexAppend(a[1..], b);
    } else {
      assert a + b == b;
    }
  }

  const ZERO_RUN: string := "000000"

  /** `identifier.replace('000000', '')` */
  function StripZeroRuns(s: string): string {
    ReplaceAll(s, ZERO_RUN, "")
  }

  /** `get_tag_event` given the outcome of the USB read: None stands for a
      read that raised, which the decoder swallows like every other error. An
      empty packet, one not starting with 0x56, or one too short to hold byte
      5 yields no event. */
  function DecodeTagEvent(read: Option<seq<byte>>): (r: Option<TagEvent>)
    ensures r.Some? <==> read.Some? && |read.value| >= 6 && read.value[0] == EVENT_MARKER
    ensures r.Some? ==> r.value.padNum == read.value[2] && r.value.wasRemoved == (read.value[5] != 0)
  {
    match read
    case None => None
    case Some(packet) =>
      if |packet| == 0 || packet[0] != EVENT_MARKER || |packet| < 6 then None
      else
        var uid := packet[6..if |packet| < 13 then |packet| else 13];
        Some(TagEvent(packet[5] != 0, packet[2], StripZeroRuns(Hex(uid))))
  }

  /** For a full packet the identifier is bytes 6..12 in hex with zero runs removed. */
  lemma DecodedIdentifier(packet: seq<byte>)
    requires |packet| >= 13 && packet[0] == EVENT_MARKER
    ensures DecodeTagEvent(Some(packet)) == Some(TagEvent(packet[5] != 0, packet[2], StripZeroRuns(Hex(packet[6..13]))))
  {
  }

  predicate ZeroPrefix(s: string, k: nat) {
    k <= |s| && forall j :: 0 <= j < k ==> s[j] == '0'
  }

  /** Leading zeros of a stripped string were leading zeros of the original. */
  lemma {:induction false} StripKeepsLeadingZeros(u: string, k: nat)
    requires k <= 6
    ensures ZeroPrefix(StripZeroRuns(u), k) ==> ZeroPrefix(u, k)
    decreases |u|
  {
    if |u| >= 6 && k > 0 {
      if u[..6] == ZERO_RUN {
        assert forall j :: 0 <= j < 6 ==> u[j] == u[..6][j];
      } else {
        var rest := StripZeroRuns(u[1..]);
        assert StripZeroRuns(u) == [u[0]] + rest;
        StripKeepsLeadingZeros(u[1..], k - 1);
        if ZeroPrefix(StripZeroRuns(u), k) {
          assert ZeroPrefix(rest, k - 1) by {
            forall j | 0 <= j < k - 1 ensures rest[j] == '0' {
              assert rest[j] == StripZeroRuns(u)[j + 1];
            }
          }
          assert u[0] == StripZeroRuns(u)[0];
          assert forall j :: 1 <= j < k ==> u[j] == u[1..][j - 1];
        }
      }
    }
  }

  /** No run of six zeros survives the replacement. */
  lemma {:induction false} StripLeavesNoZeroRun(s: string)
    ensures Free(StripZeroRuns(s), ZERO_RUN)
    decreases |s|
  {
    var r := StripZeroRuns(s);
    if |s| < 6 {
      assert r == s;
    } else if s[..6] == ZERO_RUN {
      StripLeavesNoZeroRun(s[6..]);
      assert r == StripZeroRuns(s[6..]);
    } else {
      var rest := StripZeroRuns(s[1..]);
      StripLeavesNoZeroRun(s[1..]);
      assert r == [s[0]] + rest;
      // some character among the first six is not a zero
      var j :| 0 <= j < 6 && s[j] != '0';
      StripKeepsLeadingZeros(s[1..], 5);
      forall i: nat | i <= |r|
        ensures !OccursAt(r, ZERO_RUN, i)
      {
        if i > 0 && i + 6 <= |r| {
          assert r[i..i + 6] == rest[i - 1..i - 1 + 6];
          assert !OccursAt(rest, ZERO_RUN, i - 1);
        } else if i == 0 && 6 <= |r| {
          if j == 0 {
            assert r[0..6][0] != '0';
          } else {
            assert s[1..][j - 1] != '0';
            assert !ZeroPrefix(rest, 5);
            var m :| 0 <= m < 5 && rest[m] != '0';
            assert r[0..6][m + 1] == rest[m];
          }
        }
      }
    }
  }

  /** Stripping a stripped identifier changes nothing. */
  lemma StripIdempotent(s: string)
    ensures StripZeroRuns(StripZeroRuns(s)) == StripZeroRuns(s)
  {
    StripLeavesNoZeroRun(s);
    ReplaceAbsent(StripZeroRuns(s), ZERO_RUN, "");
  }

  lemma FreeTail(a: string)
    requires |a| > 0 && Free(a, ZERO_RUN)
    ensures Free(a[1..], ZERO_RUN)
  {
    forall i: nat | i <= |a[1..]| ensures !OccursAt(a[1..], ZERO_RUN, i) {
      if i + 6 <= |a[1..]| {
        assert a[1..][i..i + 6] == a[i + 1..i + 1 + 6];
        assert !OccursAt(a, ZERO_RUN, i + 1);
      }
    }
  }

  predicate AllZeros(a: string) {
    forall j :: 0 <= j < |a| ==> a[j] == '0'
  }

  /** A run-free string followed by one run of six zeros strips back to itself. */
  lemma {:induction false} StripTrailingRun(a: string)
    requires Free(a, ZERO_RUN)
    ensures StripZeroRuns(a + ZERO_RUN) == a
    decreases |a|
  {
    var s := a + ZERO_RUN;
    if |a| < 6 && AllZeros(a) {
      assert s[..6] == ZERO_RUN;
      assert s[6..] == a;
      assert StripZeroRuns(s) == "" + StripZeroRuns(a);
      assert StripZeroRuns(a) == a;
    } else {
      if |a| >= 6 {
        assert !OccursAt(a, ZERO_RUN, 0);
        assert s[..6] == a[0..6];
      } else {
        var j :| 0 <= j < |a| && a[j] != '0';
        assert s[..6][j] == a[j];
      }
      assert s[..6] != ZERO_RUN;
      assert s[1..] == a[1..] + ZERO_RUN;
      FreeTail(a);
      StripTrailingRun(a[1..]);
      assert [a[0]] + a[1..] == a;
    }
  }

  /** Every decoded identifier is hex, contains no zero run, and is unchanged by stripping again. */
  lemma DecodedIdentifierNormalised(read: Option<seq<byte>>)
    requires DecodeTagEvent(read).Some?
    ensures var id := DecodeTagEvent(read).value.identifier;
      Free(id, ZERO_RUN) && StripZeroRuns(id) == id && forall i :: 0 <= i < |id| ==> IsHexChar(id[i])
  {
    var packet := read.value;
    var uid := packet[6..if |packet| < 13 then |packet| else 13];
    StripIdempotent(Hex(uid));
    StripLeavesNoZeroRun(Hex(uid));
    StripOnlyRemoves(Hex(uid));
    var id := StripZeroRuns(Hex(uid));
    forall i | 0 <= i < |id| ensures IsHexChar(id[i]) {
      assert id[i] in Hex(uid);
    }
  }

  /** Stripping keeps only characters of the original. */
  lemma {:induction false} StripOnlyRemoves(s: string)
    ensures forall c :: c in StripZeroRuns(s) ==> c in s
    decreases |s|
  {
    if |s| >= 6 {
      if s[..6] == ZERO_RUN {
        StripOnlyRemoves(s[6..]);
        assert StripZeroRuns(s) == StripZeroRuns(s[6..]);
        assert forall c :: c in s[6..] ==> c in s;
      } else {
        StripOnlyRemoves(s[1..]);
        assert StripZeroRuns(s) == [s[0]] + StripZeroRuns(s[1..]);
        assert forall c :: c in s[1..] ==> c in s;
      }
    }
  }

  /** A seven-byte UID whose hex has no zero run is recovered exactly from the identifier. */
  lemma UidRoundTrip(packet: seq<byte>)
    requires |packet| >= 13 && packet[0] == EVENT_MARKER
    requires Free(Hex(packet[6..13]), ZERO_RUN)
    ensures Unhex(DecodeTagEvent(Some(packet)).value.identifier) == Some(packet[6..13])
  {
    ReplaceAbsent(Hex(packet[6..13]), ZERO_RUN, "");
    HexRoundTrip(packet[6..13]);
  }

  /** A four-byte UID padded with three zero bytes decodes to the hex of the
      four bytes alone, provided that hex has no zero run of its own. */
  lemma ShortUidNormalised(packet: seq<byte>, uid: seq<byte>)
    requires |packet| >= 13 && packet[0] == EVENT_MARKER
    requires |uid| == 4 && packet[6..13] == uid + [0, 0, 0]
    requires Free(Hex(uid), ZERO_RUN)
    ensures DecodeTagEvent(Some(packet)).value.identifier == Hex(uid)
    ensures Unhex(DecodeTagEvent(Some(packet)).value.identifier) == Some(uid)
  {
    HexAppend(uid, [0, 0, 0]);
    assert Hex([0, 0, 0]) == ZERO_RUN;
    StripTrailingRun(Hex(uid));
    HexRoundTrip(uid);
  }
}
