/** The bytes on the wire, written out: the tunnel frame, the TLS record, and what is refused. */
module WireBytes {
  import opened Collections
  import opened Streams
  import opened ClientHello
  import opened Tunnel

  /** A CONNECT frame: version 1, command 1, the length of the host, the host, and the port with its high byte first. */
  lemma FrameBytes(host: Bytes, port: int)
    requires ValidHost(host)
    ensures var f := Frame(host, port);
            && |f| == |host| + 5 && f[0] == 1 && f[1] == 1 && f[2] == |host| && f[3..3 + |host|] == host
            && f[|host| + 3] as int * 256 + f[|host| + 4] == port % 65536
  {
    var f := Frame(host, port);
    assert f == [1, 1, |host|] + host + PutU16(port % 65536);
    assert f[3..3 + |host|] == host;
    assert f[|host| + 3] == port % 65536 / 256 && f[|host| + 4] == port % 65536 % 256;
  }

  /** What the relay reads as a frame: exactly the streams that start with one for a host of 1 to 253 bytes. */
  lemma FrameAcceptedIff(data: Bytes)
    ensures FrameOf(data).0.Ok? <==>
            && |data| >= 5 && data[0] == 1 && data[1] == 1 && 1 <= data[2] <= 253 && |data| >= data[2] as int + 5
    ensures FrameOf(data).0.Ok? ==>
              && FrameOf(data).0.value.host == data[3..3 + data[2]]
              && FrameOf(data).0.value.port == data[3 + data[2]] as int * 256 + data[4 + data[2]]
              && FrameOf(data).1 == data[2] as int + 5
    ensures FrameOf(data).0 == Err(Protocol) <==>
            |data| >= 3 && (data[0] != 1 || data[1] != 1 || data[2] == 0 || data[2] > 253)
    ensures FrameOf(data).0.Err? ==>
              FrameOf(data).0 == (if FrameOf(data).1 == 3 <= |data| && (data[0] != 1 || data[1] != 1 || data[2] == 0 || data[2] > 253)
                                  then Err(Protocol) else Err(ReadFailed))
    ensures FrameOf(data).0 == Err(ReadFailed) ==> FrameOf(data).1 == |data|
  {
  }

  /** A TLS handshake record: type 22, major version 3, and the length with its high byte first. */
  lemma RecordBytes(minor: Byte, body: Bytes)
    requires |body| < 65536
    ensures var r := Record(minor, body);
            && |r| == |body| + 5 && r[0] == 22 && r[1] == 3 && r[2] == minor
            && r[3] as int * 256 + r[4] == |body| && r[5..] == body
  {
    var r := Record(minor, body);
    assert r == [22, 3, minor] + PutU16(|body|) + body;
    assert r[5..] == body;
    assert r[3] == |body| / 256 && r[4] == |body| % 256;
  }

  /** A handshake message: type 1, three bytes of length with the highest first, version and random, and the session id behind its length. */
  lemma HelloBytes(h: Hello)
    requires Fits(h)
    ensures var b := Serialize(h);
            && |b| >= 39 + |h.sessionId| && b[0] == 1
            && b[1] as int * 65536 + b[2] as int * 256 + b[3] == |b| - 4 - |h.afterHandshake|
            && b[4..38] == h.versionAndRandom
            && b[38] == |h.sessionId| && b[39..39 + |h.sessionId|] == h.sessionId
  {
    hide Tail, BlockFits;
    var b, hs := Serialize(h), Handshake(h);
    U24OfPut(|hs|, [1], hs + h.afterHandshake);
    assert b == [1] + PutU24(|hs|) + (hs + h.afterHandshake);
    assert b[4..4 + |hs|] == hs;
    var fields := Fields(h.sessionId, h.suites, h.compression, Tail(h.ext));
    assert hs == h.versionAndRandom + fields;
    assert b[4..38] == hs[..34] == h.versionAndRandom;
    assert b[38] == hs[34] == fields[0];
    assert b[39..39 + |h.sessionId|] == hs[35..35 + |h.sessionId|] == fields[1..1 + |h.sessionId|] == h.sessionId;
  }

  /** What is no ClientHello at all, and what is one that is cut short or too short for version and random. */
  lemma HelloRefused(b: Bytes)
    ensures Parse(b) == Err(NotTls) <==> |b| < 4 || b[0] != 1
    ensures |b| >= 4 && b[0] == 1 ==>
              var length := b[1] as int * 65536 + b[2] as int * 256 + b[3];
              length > |b| - 4 || length < 34 ==> Parse(b) == Err(Incomplete)
    ensures Parse(b) != Err(TooLarge)
  {
    if |b| >= 4 && b[0] == 1 && 34 <= U24(b, 1) <= |b| - 4 {
      FieldsRefused(b[4..4 + U24(b, 1)][34..]);
      hide ParseFields;
    }
  }

  lemma FieldsRefused(b: Bytes)
    ensures ParseFields(b) != Err(NotTls) && ParseFields(b) != Err(TooLarge)
  {
    hide SkipU8, SkipU16, ScanExtensions;
    forall rest: Bytes ensures ParseAfterFields(rest) != Err(NotTls) && ParseAfterFields(rest) != Err(TooLarge) {
      if |rest| >= 2 && U16(rest, 0) <= |rest| - 2 { ExtensionsRefused(rest[2..2 + U16(rest, 0)]); }
    }
    hide ParseAfterFields;
  }

  lemma {:induction false} ExtensionsRefused(b: Bytes)
    ensures ScanExtensions(b) != Err(NotTls) && ScanExtensions(b) != Err(TooLarge)
    decreases |b|
  {
    if |b| >= 4 && U16(b, 2) <= |b| - 4 {
      var l := U16(b, 2);
      if U16(b, 0) == 0 {
        var ext := b[4..4 + l];
        if |ext| >= 2 && U16(ext, 0) <= |ext| - 2 { NamesRefused(ext[2..2 + U16(ext, 0)]); }
        hide ScanNames;
      } else {
        ExtensionsRefused(b[4 + l..]);
        hide ParseSniExtension;
      }
    }
  }

  lemma {:induction false} NamesRefused(b: Bytes)
    ensures ScanNames(b) != Err(NotTls) && ScanNames(b) != Err(TooLarge)
    decreases |b|
  {
    if |b| >= 3 && U16(b, 1) <= |b| - 3 && b[0] != 0 { NamesRefused(b[3 + U16(b, 1)..]); }
  }

  /** A stream that peeking gives up on, and how much of it has been consumed then. */
  lemma PeekRefuses(data: Bytes, maxBytes: int, lower: Lowering)
    ensures var (p, used) := PeekOf(data, maxBytes, lower);
            var most := if maxBytes <= 0 then 16384 else maxBytes;
            if |data| < 5 then p == Peek(Err(Incomplete), []) && used == |data|
            else if data[0] != 22 || data[1] != 3 then p == Peek(Err(NotTls), data[..5]) && used == 5
            else
              var length := data[3] as int * 256 + data[4];
              if length == 0 || 5 + length > most then p == Peek(Err(TooLarge), data[..5]) && used == 5
              else if |data| < 5 + length then p == Peek(Err(Incomplete), data[..5]) && used == |data|
              else p.raw == data[..5 + length] && used == 5 + length
  {
    hide Parse;
  }
}
