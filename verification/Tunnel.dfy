/** The tunnel between ingress and relay: the CONNECT frame, its answer, and the copy loop. */
module Tunnel {
  import opened Collections
  import opened Streams
  import opened Selector
  import opened ClientHello

  const VERSION: Byte := 1
  const CMD_CONNECT: Byte := 1
  const STATUS_OK: Byte := 0
  const STATUS_DENIED: Byte := 1
  const STATUS_DNS: Byte := 2
  const STATUS_DIAL: Byte := 3
  const MAX_HOST := 253

  datatype FrameError = BadHostLength | WriteFailed | ReadFailed | Protocol | EgressRefused(status: Byte)

  predicate ValidHost(host: Bytes) {
    0 < |host| <= MAX_HOST
  }

  /** The CONNECT frame; the port is cut down to 16 bits. */
  function Frame(host: Bytes, port: int): Bytes
    requires ValidHost(host)
  {
    [VERSION, CMD_CONNECT, |host|] + host + PutU16(port % 65536)
  }

  datatype Destination = Destination(host: Bytes, port: int)

  /** What reading a frame returns and consumes, for a connection that will deliver `data`. */
  function FrameOf(data: Bytes): (Result<Destination, FrameError>, nat) {
    if |data| < 3 then (Err(ReadFailed), |data|)
    else if data[0] != VERSION || data[1] != CMD_CONNECT then (Err(Protocol), 3)
    else if data[2] == 0 || data[2] > MAX_HOST then (Err(Protocol), 3)
    else
      var n: nat := data[2];
      if |data| < 3 + n + 2 then (Err(ReadFailed), |data|)
      else (Ok(Destination(data[3..3 + n], U16(data, 3 + n))), 3 + n + 2)
  }

  method ReadConnect(r: Reader) returns (d: Result<Destination, FrameError>)
    requires r.Valid()
    modifies r
    ensures r.Valid()
    ensures d == FrameOf(old(r.Rest())).0 && r.pos == old(r.pos) + FrameOf(old(r.Rest())).1
  {
    ghost var data := r.Rest();
    var hdr, ok := r.ReadFull(3);
    if !ok { return Err(ReadFailed); }
    if hdr[0] != VERSION || hdr[1] != CMD_CONNECT { return Err(Protocol); }
    var n: nat := hdr[2];
    if n == 0 || n > MAX_HOST { return Err(Protocol); }
    assert r.Rest() == data[3..];
    var b, ok' := r.ReadFull(n + 2);
    if !ok' { return Err(ReadFailed); }
    assert b == data[3..][..n + 2];
    assert b[..n] == data[3..3 + n];
    assert U16(b, n) == U16(data, 3 + n);
    return Ok(Destination(b[..n], U16(b, n)));
  }

  /** Sends the frame and waits for the status byte, which it consumes and nothing more; without one it consumes nothing. */
  method WriteConnect(w: Writer, r: Reader, host: Bytes, port: int) returns (e: Option<FrameError>)
    requires r.Valid()
    modifies w, r
    ensures r.Valid()
    ensures e == Some(BadHostLength) <==> !ValidHost(host)
    ensures !ValidHost(host) ==> w.sent == old(w.sent) && r.pos == old(r.pos)
    ensures ValidHost(host) ==> exists n :: 0 <= n <= |Frame(host, port)| && w.sent == old(w.sent) + Frame(host, port)[..n]
    ensures e.None? ==> ValidHost(host) && w.sent == old(w.sent) + Frame(host, port)
    ensures e.None? || (e.Some? && e.value.EgressRefused?) ==>
              && old(r.Rest()) != [] && r.pos == old(r.pos) + 1
              && (e.None? <==> old(r.Rest())[0] == 0)
              && (e.Some? ==> e.value.status == old(r.Rest())[0])
    ensures e == Some(ReadFailed) ==> old(r.Rest()) == [] && r.pos == old(r.pos) && w.sent == old(w.sent) + Frame(host, port)
    ensures e == Some(WriteFailed) ==> r.pos == old(r.pos)
    ensures e.Some? ==> !e.value.Protocol?
  {
    if |host| == 0 || |host| > MAX_HOST { return Some(BadHostLength); }
    var frame := Frame(host, port);
    var n, ok := w.Write(frame);
    assert 0 <= n <= |frame|;
    if !ok { return Some(WriteFailed); }
    assert frame[..n] == frame;
    var st, ok' := r.ReadFull(1);
    if !ok' { return Some(ReadFailed); }
    if st[0] != STATUS_OK { return Some(EgressRefused(st[0])); }
    return None;
  }

  /** The relay reads back the host and the port's low 16 bits, and not a byte beyond the frame. */
  lemma FrameRoundTrip(host: Bytes, port: int, rest: Bytes)
    requires ValidHost(host)
    ensures FrameOf(Frame(host, port) + rest) == (Ok(Destination(host, port % 65536)), |Frame(host, port)|)
  {
    var data := Frame(host, port) + rest;
    var pre := [VERSION, CMD_CONNECT, |host|] + host;
    U16OfPut(port % 65536, pre, rest);
    assert data == pre + PutU16(port % 65536) + rest;
    assert data[3..3 + |host|] == host;
  }

  /** Whatever the relay accepts is such a frame. */
  lemma AcceptedIsFrame(data: Bytes)
    requires FrameOf(data).0.Ok?
    ensures var (d, used) := FrameOf(data);
            && used <= |data| && ValidHost(d.value.host) && 0 <= d.value.port < 65536
            && data[..used] == Frame(d.value.host, d.value.port)
  {
    var n: nat := data[2];
    PutOfU16(data, 3 + n);
    assert data[..3 + n + 2] == [data[0], data[1], data[2]] + data[3..3 + n] + data[3 + n..3 + n + 2];
  }

  /** Two frames that start the same stream are the same frame. */
  lemma FrameUnique(host: Bytes, port: int, data: Bytes)
    requires ValidHost(host)
    requires FrameOf(data).0.Ok? && FrameOf(data).1 == |data|
    requires exists more :: data <= Frame(host, port) + more
    ensures data == Frame(host, port)
  {
    var frame := Frame(host, port);
    var more :| data <= frame + more;
    assert data[2] == (frame + more)[2];
    assert |data| == |frame|;
    assert data == (frame + more)[..|frame|];
  }

  // ----- refusals as error texts -----

  function StatusText(s: Byte): string {
    if s == STATUS_OK then "ok"
    else if s == STATUS_DENIED then "destination not allowed"
    else if s == STATUS_DNS then "resolution failed or blocked"
    else if s == STATUS_DIAL then "dial failed"
    else "protocol error"
  }

  const REFUSED := "egress refused: "

  predicate DiffersAt(s: string, sub: string, i: int, k: int) {
    0 <= k < |sub| && 0 <= i + k < |s| && s[i + k] != sub[k]
  }

  /** Laid over `s` at `i`, the text `sub` disagrees somewhere. */
  ghost predicate Disagrees(s: string, sub: string, i: int) {
    exists k :: DiffersAt(s, sub, i, k)
  }

  lemma NoOccurrence(s: string, sub: string)
    requires forall i :: 0 <= i <= |s| - |sub| ==> Disagrees(s, sub, i)
    ensures !Contains(s, sub)
  {
    forall i ensures !OccursAt(s, sub, i) {
      if 0 <= i <= |s| - |sub| {
        assert Disagrees(s, sub, i);
        var k :| DiffersAt(s, sub, i, k);
        assert s[i..i + |sub|][k] == s[i + k];
      }
    }
  }

  /** A short text behind the refusal prefix is not taken for a denial. */
  lemma NotDenied(s: string)
    requires |s| <= 30 && REFUSED <= s
    ensures !Contains(s, DENIED_TEXT)
  {
    forall i | 0 <= i <= |s| - |DENIED_TEXT| ensures Disagrees(s, DENIED_TEXT, i) {
      assert s[i] == REFUSED[i] && DENIED_TEXT[0] == 'd';
      assert DiffersAt(s, DENIED_TEXT, i, 0);
    }
    NoOccurrence(s, DENIED_TEXT);
  }

  lemma NotUnresolved(s: string)
    requires |s| <= 30 && REFUSED <= s
    ensures !Contains(s, DNS_TEXT)
  {
    forall i | 0 <= i <= |s| - |DNS_TEXT| ensures Disagrees(s, DNS_TEXT, i) {
      assert s[i] == REFUSED[i] && DNS_TEXT[0] == 'r' && DNS_TEXT[3] == 'o';
      if i == 2 || i == 7 {
        assert s[i + 3] == REFUSED[i + 3];
        assert DiffersAt(s, DNS_TEXT, i, 3);
      } else {
        assert DiffersAt(s, DNS_TEXT, i, 0);
      }
    }
    NoOccurrence(s, DNS_TEXT);
  }

  /**
   * A dial error counts as a policy refusal, and so leaves the relay's health alone,
   * exactly for the two statuses that speak about the destination.
   */
  lemma RefusalStatuses(s: Byte)
    requires s != 0
    ensures IsPolicyRefusal(REFUSED + StatusText(s)) <==> s == 1 || s == 2
  {
    var text := REFUSED + StatusText(s);
    if s == STATUS_DENIED {
      assert text[16..16 + |DENIED_TEXT|] == DENIED_TEXT;
      assert OccursAt(text, DENIED_TEXT, 16);
    } else if s == STATUS_DNS {
      assert text[16..16 + |DNS_TEXT|] == DNS_TEXT;
      assert OccursAt(text, DNS_TEXT, 16);
    } else if s == STATUS_DIAL {
      assert REFUSED <= text;
      NotDenied(text);
      NotUnresolved(text);
    } else {
      assert REFUSED <= text;
      NotDenied(text);
      NotUnresolved(text);
    }
  }

  // ----- one direction of the splice -----

  /**
   * Copies until the source ends or the destination fails. Whatever the pieces, the
   * destination has received exactly the first `n` bytes the source still had; if no
   * write failed, that is all of them.
   */
  method CopyLoop(dst: Writer, src: Reader) returns (n: nat, failed: bool)
    requires src.Valid()
    modifies dst, src
    ensures src.Valid()
    ensures n <= |old(src.Rest())| && dst.sent == old(dst.sent) + old(src.Rest())[..n]
    ensures !failed ==> n == |old(src.Rest())|
    ensures old(src.pos) + n <= src.pos
  {
    n, failed := 0, false;
    ghost var rest := src.Rest();
    while true
      invariant src.Valid() && src.pos == old(src.pos) + n
      invariant n <= |rest| && dst.sent == old(dst.sent) + rest[..n]
      decreases |rest| - n
    {
      var chunk := Arrival();
      var piece := src.Read(32 * 1024, chunk);
      if piece == [] { break; }
      assert rest == src.data[|src.data| - |rest|..];
      assert piece == rest[n..n + |piece|];
      var nw, ok := dst.Write(piece);
      assert rest[..n] + piece[..nw] == rest[..n + nw];
      n := n + nw;
      if !ok {
        failed := true;
        break;
      }
    }
  }
}
