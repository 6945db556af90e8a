/** The opening handshake of a WebSocket connection: the client's
    `Sec-WebSocket-Key` header read from the upgrade request, and the
    accept token computed from it (RFC 6455 section 4.2.2). */
module Handshake {
  import opened Wrappers
  import opened JavaText
  import FrameCodec

  /** The GUID that RFC 6455 section 1.3 appends to the client's key. */
  const Guid: string := "258EAFA5-E914-47DA-95CA-C5AB0DC85B11"

  const KeyHeader: string := "Sec-WebSocket-Key:"

  /** The text whose SHA-1 digest is the accept token. */
  function AcceptInput(key: string): string {
    key + Guid
  }

  /** calculateWebSocketAccept: Base64 of the SHA-1 digest of the UTF-8
      bytes of the key followed by the GUID. The three library functions
      are parameters. */
  function AcceptToken(key: string, utf8: string -> seq<FrameCodec.byte>,
                       sha1: seq<FrameCodec.byte> -> seq<FrameCodec.byte>,
                       base64: seq<FrameCodec.byte> -> string): string
  {
    base64(sha1(utf8(AcceptInput(key))))
  }

  /** The hashed text is the key, unchanged, followed by the 36-character GUID. */
  lemma AcceptInputShape(key: string)
    ensures |AcceptInput(key)| == |key| + 36
    ensures StartsWith(AcceptInput(key), key) && EndsWith(AcceptInput(key), Guid)
  {
    assert AcceptInput(key)[..|key|] == key;
    assert AcceptInput(key)[|key|..] == Guid;
  }

  /** Different keys are hashed from different texts. */
  lemma AcceptInputInjective(k1: string, k2: string)
    requires AcceptInput(k1) == AcceptInput(k2)
    ensures k1 == k2
  {
    AcceptInputShape(k1);
    AcceptInputShape(k2);
    assert k1 == AcceptInput(k1)[..|k1|];
  }

  /** The 101 reply the server writes once the key is known. */
  function SwitchingProtocols(accept: string): string {
    "HTTP/1.1 101 Switching Protocols\r\nUpgrade: websocket\r\nConnection: Upgrade\r\n"
      + "Sec-WebSocket-Accept: " + accept + "\r\n\r\n"
  }

  /** The outcome of reading the upgrade request: the key, no key header
      (the socket is closed), or an exception (a key line of 18 characters,
      on which `substring(19)` throws). */
  datatype KeyResult = Key(key: string) | NoKey | Fault

  predicate IsKeyLine(line: string) {
    StartsWith(line, KeyHeader)
  }

  /** The header loop from line `i` on, with `key` the key seen so far: it
      stops at the first empty line or at the end of the stream, and each
      key line replaces the key with its text after column 19, trimmed. */
  function KeyFrom(lines: seq<string>, i: nat, key: Option<string>): KeyResult
    decreases |lines| - i
  {
    if i >= |lines| || lines[i] == [] then
      if key.None? then NoKey else Key(key.value)
    else if IsKeyLine(lines[i]) then
      if |lines[i]| < 19 then Fault else KeyFrom(lines, i + 1, Some(Trim(lines[i][19..])))
    else KeyFrom(lines, i + 1, key)
  }

  /** The key the upgrade request `lines` (as readLine returns them) yields. */
  function UpgradeKey(lines: seq<string>): KeyResult {
    KeyFrom(lines, 0, None)
  }

  /** The header loop of handleWebSocketConnection. */
  method ReadUpgradeKey(lines: seq<string>) returns (r: KeyResult)
    ensures r == UpgradeKey(lines)
  {
    var wsKey: Option<string> := None;
    var i := 0;
    while i < |lines| && lines[i] != []
      invariant i <= |lines|
      invariant KeyFrom(lines, i, wsKey) == UpgradeKey(lines)
      decreases |lines| - i
    {
      var line := lines[i];
      if IsKeyLine(line) {
        if |line| < 19 {
          return Fault;
        }
        wsKey := Some(Trim(line[19..]));
      }
      i := i + 1;
    }
    if wsKey == None {
      return NoKey;
    }
    return Key(wsKey.value);
  }

  /** Lines that come before a later key line: neither empty nor a key line
      too short to cut. */
  predicate PassableLines(lines: seq<string>) {
    forall j :: 0 <= j < |lines| ==> lines[j] != [] && (IsKeyLine(lines[j]) ==> |lines[j]| >= 19)
  }

  /** The key the header loop holds after lines `i..` of `lines`, starting
      from `key`, when none of them stops it. */
  function KeyAfter(lines: seq<string>, i: nat, key: Option<string>): Option<string>
    decreases |lines| - i
  {
    if i >= |lines| then key
    else KeyAfter(lines, i + 1, if IsKeyLine(lines[i]) && |lines[i]| >= 19 then Some(Trim(lines[i][19..])) else key)
  }

  lemma {:induction false} KeyFromPassable(pre: seq<string>, tail: seq<string>, i: nat, key: Option<string>)
    requires i <= |pre| && PassableLines(pre)
    ensures KeyFrom(pre + tail, i, key) == KeyFrom(pre + tail, |pre|, KeyAfter(pre, i, key))
    decreases |pre| - i
  {
    if i < |pre| {
      var lines := pre + tail;
      var line := pre[i];
      assert lines[i] == line && line != [];
      var next := if IsKeyLine(line) && |line| >= 19 then Some(Trim(line[19..])) else key;
      assert KeyFrom(lines, i, key) == KeyFrom(lines, i + 1, next);
      KeyFromPassable(pre, tail, i + 1, next);
    }
  }

  lemma {:induction false} KeyFromNoKeyLines(lines: seq<string>, i: nat, key: Option<string>)
    requires forall j :: i <= j < |lines| ==> !IsKeyLine(lines[j])
    ensures KeyFrom(lines, i, key) == if key.None? then NoKey else Key(key.value)
    decreases |lines| - i
  {
    if i < |lines| && lines[i] != [] {
      KeyFromNoKeyLines(lines, i + 1, key);
    }
  }

  /** The last key line of the header block wins: after a line
      `Sec-WebSocket-Key: k` followed by no other key line, the key is `k`
      trimmed, whatever came before. */
  lemma LastKeyLineWins(pre: seq<string>, k: string, post: seq<string>)
    requires PassableLines(pre)
    requires forall j :: 0 <= j < |post| ==> !IsKeyLine(post[j])
    ensures UpgradeKey(pre + [KeyHeader + " " + k] + post) == Key(Trim(k))
  {
    var line := KeyHeader + " " + k;
    var lines := pre + [line] + post;
    assert lines == pre + ([line] + post);
    KeyFromPassable(pre, [line] + post, 0, None);
    assert lines[|pre|] == line;
    assert line[..|KeyHeader|] == KeyHeader;
    assert line[19..] == k;
    forall j | |pre| + 1 <= j < |lines| ensures !IsKeyLine(lines[j]) {
      assert lines[j] == post[j - |pre| - 1];
    }
    KeyFromNoKeyLines(lines, |pre| + 1, Some(Trim(k)));
  }

  /** A request without any key line in its header block gets no handshake. */
  lemma NoKeyLineNoKey(lines: seq<string>)
    requires forall j :: 0 <= j < |lines| ==> !IsKeyLine(lines[j])
    ensures UpgradeKey(lines) == NoKey
  {
    KeyFromNoKeyLines(lines, 0, None);
  }

  /** A request whose header block is one long enough key line. */
  lemma OneKeyLine(line: string)
    requires IsKeyLine(line) && |line| >= 19
    ensures UpgradeKey([line]) == Key(Trim(line[19..]))
  {
    assert [line][0] == line;
    assert KeyFrom([line], 1, Some(Trim(line[19..]))) == Key(Trim(line[19..]));
  }

  /** A key line: the header, then `rest`, cut at column 19. */
  lemma KeyLineCut(line: string, rest: string)
    requires line == KeyHeader + rest && rest != []
    ensures IsKeyLine(line) && |line| >= 19 && line[19..] == rest[1..]
  {
    assert line[..|KeyHeader|] == KeyHeader;
  }

  /** A text with no blank at either end is its own trim. */
  lemma TrimVisible(k: string)
    requires k != [] && k[0] > ' ' && k[|k| - 1] > ' '
    ensures Trim(k) == k
  {
    assert TrimStart(k) == k;
  }

  /** `substring(19)` assumes one character between the colon and the key:
      written without the space, the key loses its first character. */
  lemma KeyWithoutSpace()
    ensures UpgradeKey([KeyHeader + "dGhl"]) == Key("Ghl")
  {
    var line := KeyHeader + "dGhl";
    KeyLineCut(line, "dGhl");
    OneKeyLine(line);
    var key: string := "Ghl";
    assert "dGhl"[1..] == key;
    TrimVisible(key);
  }

  /** A key line with nothing after the colon throws, and no handshake follows. */
  lemma BareKeyLineFaults(rest: seq<string>)
    ensures UpgradeKey([KeyHeader] + rest) == Fault
  {
    assert ([KeyHeader] + rest)[0] == KeyHeader;
  }
}
