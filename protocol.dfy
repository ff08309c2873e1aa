/** The request/response framing of the Sunshine serial protocol.

    A command is a three-character ASCII frame ending in the stop character.
    The serial port is abstracted as a `Transport`: whether writing a given
    frame succeeds, and what a read section with given parameters returns.
    The reply buffer is a fixed 20-character array owned by the caller.
 */
module Protocol {

  /** Capacity of every reply buffer. */
  const DRIVER_LEN: nat := 20

  /** Code of the character that ends every reply (and every command). */
  const DRIVER_STOP_CODE: int := 0x23

  const DRIVER_STOP_CHAR: char := DRIVER_STOP_CODE as char

  /** Read timeout handed to the transport (seconds). */
  const DRIVER_TIMEOUT: nat := 3

  const NUL: char := 0 as char

  const PING_FRAME: string := ":P#"

  const VERSION_FRAME: string := ":V#"

  /** The parameters of one read-until-stop-character call. */
  datatype ReadSection = ReadSection(capacity: nat, stop: char, timeout: nat)

  /** The one read every command performs. */
  const DRIVER_READ: ReadSection := ReadSection(DRIVER_LEN, DRIVER_STOP_CHAR, DRIVER_TIMEOUT)

  /** What a read section did: on success, the bytes read (the count is
      their length); on failure, whatever bytes it had stored in the buffer. */
  datatype ReadOutcome = ReadOk(data: seq<char>) | ReadFailed(stored: seq<char>)

  /** The serial port as the driver sees it. */
  datatype Transport = Transport(write: string -> bool, read: ReadSection -> ReadOutcome)

  /** The calls a command makes on the port, in order. */
  datatype PortCall = Flush | Write(frame: string) | Read(section: ReadSection)

  /** What the read transport promises for a buffer of `capacity` bytes: it
      never stores more than that, and a successful read has read at least
      one byte (the stop character). */
  predicate Honours(o: ReadOutcome, capacity: nat) {
    match o
    case ReadOk(data) => 1 <= |data| <= capacity
    case ReadFailed(stored) => |stored| <= capacity
  }

  /** A buffer after a transport stored `data` at its front. */
  function Overlay(buf: seq<char>, data: seq<char>): (r: seq<char>)
    requires |data| <= |buf|
    ensures |r| == |buf|
    ensures r[..|data|] == data && r[|data|..] == buf[|data|..]
  {
    data + buf[|data|..]
  }

  /** The result of one command round trip: its verdict, the reply buffer
      afterwards and the calls made on the port. */
  datatype Sent = Sent(ok: bool, res: seq<char>, calls: seq<PortCall>)

  /** One command round trip in the buffer `res`. */
  function Send(cmd: string, port: Transport, res: seq<char>): (r: Sent)
    requires |res| == DRIVER_LEN
    requires port.write(cmd) ==> Honours(port.read(DRIVER_READ), DRIVER_LEN)
    ensures |r.res| == DRIVER_LEN
    ensures r.ok ==> port.write(cmd)
    ensures |r.calls| >= 2 && r.calls[..2] == [Flush, Write(cmd)]
  {
    if !port.write(cmd) then Sent(false, res, [Flush, Write(cmd)])
    else
      var calls := [Flush, Write(cmd), Read(DRIVER_READ)];
      match port.read(DRIVER_READ)
      case ReadFailed(stored) => Sent(false, Overlay(res, stored), calls)
      case ReadOk(data) => Sent(true, Overlay(res, data)[|data| - 1 := NUL], calls)
  }

  /** A failed write is reported at once: no read is attempted and the
      buffer is untouched. */
  lemma SendWriteError(cmd: string, port: Transport, res: seq<char>)
    requires |res| == DRIVER_LEN
    requires !port.write(cmd)
    ensures Send(cmd, port, res) == Sent(false, res, [Flush, Write(cmd)])
  {
  }

  /** Every round trip flushes, writes the frame once and, only if the
      write succeeded, reads once with capacity 20, stop character '#' and
      timeout 3. */
  lemma SendCalls(cmd: string, port: Transport, res: seq<char>)
    requires |res| == DRIVER_LEN
    requires port.write(cmd) ==> Honours(port.read(DRIVER_READ), DRIVER_LEN)
    ensures Send(cmd, port, res).calls
         == [Flush, Write(cmd)] + if port.write(cmd) then [Read(ReadSection(20, '#', 3))] else []
  {
  }

  /** A failed read is reported as a failure, after the one read. */
  lemma SendReadError(cmd: string, port: Transport, res: seq<char>)
    requires |res| == DRIVER_LEN
    requires port.write(cmd) && port.read(DRIVER_READ).ReadFailed?
    requires Honours(port.read(DRIVER_READ), DRIVER_LEN)
    ensures !Send(cmd, port, res).ok
    ensures Send(cmd, port, res).res
         == Overlay(res, port.read(DRIVER_READ).stored)
  {
  }

  /** A successful round trip keeps what was read except its last byte,
      which becomes NUL, and leaves the rest of the buffer as it was. */
  lemma SendSuccess(cmd: string, port: Transport, res: seq<char>)
    requires |res| == DRIVER_LEN
    requires port.write(cmd) && port.read(DRIVER_READ).ReadOk?
    requires Honours(port.read(DRIVER_READ), DRIVER_LEN)
    ensures var r := Send(cmd, port, res);
      var n := |port.read(DRIVER_READ).data|;
      && r.ok
      && r.res[..n - 1] == port.read(DRIVER_READ).data[..n - 1]
      && r.res[n - 1] == NUL
      && r.res[n..] == res[n..]
  {
    var data := port.read(DRIVER_READ).data;
    var n := |data|;
    var r := Send(cmd, port, res);
    assert r.res[..n - 1] == Overlay(res, data)[..n - 1];
    assert r.res[n..] == Overlay(res, data)[n..];
  }

  /** The verdict is success exactly when both the write and the read
      succeeded. */
  lemma SendOkIffBothSucceed(cmd: string, port: Transport, res: seq<char>)
    requires |res| == DRIVER_LEN
    requires port.write(cmd) ==> Honours(port.read(DRIVER_READ), DRIVER_LEN)
    ensures Send(cmd, port, res).ok <==> port.write(cmd) && port.read(DRIVER_READ).ReadOk?
  {
  }

  /** Both command frames end in the reply stop character 0x23. */
  lemma FramesEndWithStopChar()
    ensures DRIVER_STOP_CHAR == '#'
    ensures |PING_FRAME| == 3 && PING_FRAME[2] == DRIVER_STOP_CHAR
    ensures |VERSION_FRAME| == 3 && VERSION_FRAME[2] == DRIVER_STOP_CHAR
  {
  }

  /** A buffer of NULs, as `char res[DRIVER_LEN] = {0}` declares it. */
  function Zeros(n: nat): (z: seq<char>)
    ensures |z| == n && forall i :: 0 <= i < n ==> z[i] == NUL
  {
    seq(n, _ => NUL)
  }

  /** The text a C string denotes: everything before its first NUL. */
  function CString(s: seq<char>): (r: seq<char>)
    ensures |r| <= |s| && r == s[..|r|]
    ensures NUL !in r
    ensures |r| < |s| ==> s[|r|] == NUL
  {
    if s == [] || s[0] == NUL then [] else [s[0]] + CString(s[1..])
  }

  /** A string with no NUL followed by a NUL reads back as itself. */
  lemma {:induction false} CStringOfTerminated(p: seq<char>, rest: seq<char>)
    requires NUL !in p
    ensures CString(p + [NUL] + rest) == p
  {
    if p != [] {
      assert (p + [NUL] + rest)[1..] == p[1..] + [NUL] + rest;
      CStringOfTerminated(p[1..], rest);
    }
  }

  /** The terminator is stripped: a reply made of a NUL-free payload and one
      final byte reads back, as a C string, as the payload. */
  lemma ReplyReadsAsPayload(cmd: string, port: Transport, payload: seq<char>, last: char)
    requires NUL !in payload
    requires port.write(cmd) && port.read(DRIVER_READ) == ReadOk(payload + [last])
    requires |payload| < DRIVER_LEN
    ensures var r := Send(cmd, port, Zeros(DRIVER_LEN));
      r.ok && CString(r.res) == payload
  {
    var r := Send(cmd, port, Zeros(DRIVER_LEN));
    var n := |payload|;
    assert r.res == payload + [NUL] + Zeros(DRIVER_LEN)[n + 1..];
    CStringOfTerminated(payload, Zeros(DRIVER_LEN)[n + 1..]);
  }

  /** The six characters `fmt_fw` holds: reply offsets 2, 3 and 4 joined by
      dots, then a NUL. */
  function FirmwareFormat(res: seq<char>): (fmt: seq<char>)
    requires |res| == DRIVER_LEN
    ensures |fmt| == 6 && fmt[5] == NUL
  {
    [res[2], '.', res[3], '.', res[4], NUL]
  }

  /** The firmware text saved from a reply buffer. */
  function FirmwareText(res: seq<char>): (fw: seq<char>)
    requires |res| == DRIVER_LEN
    ensures |fw| <= 5 && NUL !in fw
    ensures fw == [] || fw[0] == res[2]
  {
    CString(FirmwareFormat(res))
  }

  /** The saved text is "D.D.D" built from offsets 2, 3 and 4 when none of
      them is NUL, and is cut short at the first of them that is. */
  lemma FirmwareTextCases(res: seq<char>)
    requires |res| == DRIVER_LEN
    ensures res[2] == NUL ==> FirmwareText(res) == []
    ensures res[2] != NUL && res[3] == NUL ==> FirmwareText(res) == [res[2], '.']
    ensures res[2] != NUL && res[3] != NUL && res[4] == NUL
        ==> FirmwareText(res) == [res[2], '.', res[3], '.']
    ensures res[2] != NUL && res[3] != NUL && res[4] != NUL
        ==> FirmwareText(res) == [res[2], '.', res[3], '.', res[4]]
  {
    var f := FirmwareFormat(res);
    if res[2] != NUL {
      assert CString(f) == [res[2]] + CString(f[1..]);
      assert CString(f[1..]) == ['.'] + CString(f[2..]);
      if res[3] != NUL {
        assert CString(f[2..]) == [res[3]] + CString(f[3..]);
        assert CString(f[3..]) == ['.'] + CString(f[4..]);
        if res[4] != NUL {
          assert CString(f[4..]) == [res[4]] + CString(f[5..]);
        }
      }
    }
  }

  /** A well-formed version reply (five NUL-free bytes and a terminator)
      yields the firmware text "D.D.D" from its bytes 2, 3 and 4. */
  lemma FirmwareFromVersionReply(port: Transport, payload: seq<char>, last: char)
    requires |payload| == 5 && NUL !in payload
    requires port.write(VERSION_FRAME) && port.read(DRIVER_READ) == ReadOk(payload + [last])
    ensures var r := Send(VERSION_FRAME, port, Zeros(DRIVER_LEN));
      r.ok && FirmwareText(r.res) == [payload[2], '.', payload[3], '.', payload[4]]
  {
    var r := Send(VERSION_FRAME, port, Zeros(DRIVER_LEN));
    assert r.res[2] == payload[2] && r.res[3] == payload[3] && r.res[4] == payload[4];
    FirmwareTextCases(r.res);
  }

  /** The reply "xx210#" gives the firmware text "2.1.0". */
  lemma FirmwareExample(port: Transport)
    requires port.write(VERSION_FRAME) && port.read(DRIVER_READ) == ReadOk("xx210#")
    ensures FirmwareText(Send(VERSION_FRAME, port, Zeros(DRIVER_LEN)).res) == "2.1.0"
  {
    assert "xx210#" == "xx210" + ['#'];
    FirmwareFromVersionReply(port, "xx210", '#');
  }

  /** Offsets 2 to 4 are read without checking the reply length: a short
      reply "xx1#" leaves only "1." (its terminator was replaced by NUL). */
  lemma FirmwareShortReply(port: Transport)
    requires port.write(VERSION_FRAME) && port.read(DRIVER_READ) == ReadOk("xx1#")
    ensures FirmwareText(Send(VERSION_FRAME, port, Zeros(DRIVER_LEN)).res) == "1."
  {
    var r := Send(VERSION_FRAME, port, Zeros(DRIVER_LEN));
    assert r.res[2] == '1' && r.res[3] == NUL;
    FirmwareTextCases(r.res);
  }
}
