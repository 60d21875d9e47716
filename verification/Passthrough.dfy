/**
 * One proxied connection end to end: client, ingress, tunnel, relay, origin. Every
 * interleaving of partial reads, partial writes, errors and closes is a run of the steps
 * below.
 */
module Passthrough {
  import opened Collections
  import opened Streams
  import opened ClientHello
  import opened Tunnel
  import RuleLines

  /** One copy direction: bytes read but not yet written, and the counter of bytes written. */
  datatype Lane = Lane(buf: Bytes, running: bool, copied: nat)

  const NEW_LANE := Lane([], true, 0)

  datatype Ingress =
    | Sniffing
    | Connecting(host: Bytes, port: int, raw: Bytes)
    | Replaying(host: Bytes, port: int, raw: Bytes, replayed: nat)
    | Splicing(host: Bytes, port: int, raw: Bytes, up: Lane, down: Lane)
    | IngressClosed

  datatype Relay =
    | Framing
    | Resolving(frame: nat)
    | Relaying(frame: nat, out: Lane, back: Lane)
    | RelayClosed

  /** How the ingress reads a name: the most it reads, lower case on bytes, decoding, and the text functions of host names. */
  datatype Setup = Setup(maxBytes: int, lower: Lowering, decode: Bytes -> string, text: RuleLines.Text)

  /** Characters as bytes; a good host name is ASCII, where they agree. */
  function Encoded(h: string): Bytes {
    seq(|h|, i requires 0 <= i < |h| => h[i] as int % 256)
  }

  /** The host a connection asks for: the normalised name of the record, if it is a whole record with a good name. */
  function HostOf(c: Setup, raw: Bytes): Option<Bytes> {
    var peek := PeekOf(raw, c.maxBytes, c.lower).0;
    if peek.name.Ok? && peek.raw == raw && RuleLines.Normalized(c.text, c.decode(peek.name.value)).Some?
    then Some(Encoded(RuleLines.Normalized(c.text, c.decode(peek.name.value)).value)) else None
  }

  /** Normalised names fit the frame. */
  lemma HostFits(c: Setup, raw: Bytes)
    requires HostOf(c, raw).Some?
    ensures ValidHost(HostOf(c, raw).value)
  {
    var h := RuleLines.Normalized(c.text, c.decode(PeekOf(raw, c.maxBytes, c.lower).0.name.value)).value;
    assert RuleLines.HostOk(h);
    assert h != "" by { assert RuleLines.Split("", '.') == [""]; }
    hide PeekOf;
  }

  /**
   * The logs are everything ever written on each side of each connection; the counters
   * say how much of a log its reader has taken.
   */
  datatype State = State(
    client: Bytes, clientTaken: nat,
    up: Bytes, upTaken: nat,
    origin: Bytes,
    answer: Bytes, answerTaken: nat,
    down: Bytes, downTaken: nat,
    delivered: Bytes,
    ingress: Ingress, relay: Relay,
    dest: Option<Destination>, setup: Setup)

  datatype Step =
    | ClientSends(bytes: Bytes)
    | OriginSends(bytes: Bytes)
    // ingress
    | SniffRead(n: nat)
    | SniffDone(port: int)
    | SendFrame(n: nat)
    | ReadStatus
    | Redial
    | Replay(n: nat)
    | StartSplice
    | UpRead(n: nat) | UpWrite(n: nat) | UpStop
    | DownRead(n: nat) | DownWrite(n: nat) | DownStop
    | CloseIngress
    // relay
    | FrameRead(n: nat)
    | FrameDone
    | Answer(status: Byte)
    | OutRead(n: nat) | OutWrite(n: nat) | OutStop
    | BackRead(n: nat) | BackWrite(n: nat) | BackStop
    | CloseRelay

  function Init(c: Setup): State {
    State([], 0, [], 0, [], [], 0, [], 0, [], Sniffing, Framing, None, c)
  }

  // ----- lanes -----

  predicate CanRead(l: Lane, src: Bytes, taken: nat, n: nat) {
    l.running && l.buf == [] && 0 < n && taken + n <= |src|
  }

  predicate CanWrite(l: Lane, n: nat) {
    l.running && 0 < n <= |l.buf|
  }

  function AfterRead(l: Lane, src: Bytes, taken: nat, n: nat): Lane
    requires CanRead(l, src, taken, n)
  {
    l.(buf := src[taken..taken + n])
  }

  function AfterWrite(l: Lane, n: nat): Lane
    requires CanWrite(l, n)
  {
    Lane(l.buf[n..], true, l.copied + n)
  }

  /** The read side ended or the write side failed: what is still buffered is dropped. */
  function Stopped(l: Lane): Lane {
    Lane([], false, l.copied)
  }

  // ----- steps -----

  predicate Can(s: State, st: Step) {
    match st
    case ClientSends(b) => true
    case OriginSends(b) => s.relay.Resolving? || s.relay.Relaying?
    case SniffRead(n) => s.ingress.Sniffing? && s.clientTaken + n <= |s.client|
    case SniffDone(_) =>
      s.ingress.Sniffing? && s.clientTaken <= |s.client| && HostOf(s.setup, s.client[..s.clientTaken]).Some?
    case SendFrame(n) =>
      && s.ingress.Connecting? && ValidHost(s.ingress.host)
      && |s.up| + n <= |Frame(s.ingress.host, s.ingress.port)|
    case ReadStatus =>
      && s.ingress.Connecting? && ValidHost(s.ingress.host) && s.downTaken == 0 && |s.down| > 0
      && s.up == Frame(s.ingress.host, s.ingress.port)
    case Redial => s.ingress.Connecting?
    case Replay(n) => s.ingress.Replaying? && s.ingress.replayed + n <= |s.ingress.raw|
    case StartSplice => s.ingress.Replaying? && s.ingress.replayed == |s.ingress.raw|
    case UpRead(n) => s.ingress.Splicing? && CanRead(s.ingress.up, s.client, s.clientTaken, n)
    case UpWrite(n) => s.ingress.Splicing? && CanWrite(s.ingress.up, n)
    case UpStop => s.ingress.Splicing?
    case DownRead(n) => s.ingress.Splicing? && CanRead(s.ingress.down, s.down, s.downTaken, n)
    case DownWrite(n) => s.ingress.Splicing? && CanWrite(s.ingress.down, n)
    case DownStop => s.ingress.Splicing?
    case CloseIngress => true
    case FrameRead(n) => s.relay.Framing? && s.upTaken + n <= |s.up|
    case FrameDone =>
      && s.relay.Framing? && s.upTaken <= |s.up|
      && FrameOf(s.up[..s.upTaken]).0.Ok? && FrameOf(s.up[..s.upTaken]).1 == s.upTaken
    case Answer(status) => s.relay.Resolving?
    case OutRead(n) => s.relay.Relaying? && CanRead(s.relay.out, s.up, s.upTaken, n)
    case OutWrite(n) => s.relay.Relaying? && CanWrite(s.relay.out, n)
    case OutStop => s.relay.Relaying?
    case BackRead(n) => s.relay.Relaying? && CanRead(s.relay.back, s.answer, s.answerTaken, n)
    case BackWrite(n) => s.relay.Relaying? && CanWrite(s.relay.back, n)
    case BackStop => s.relay.Relaying?
    case CloseRelay => true
  }

  function Do(s: State, st: Step): State
    requires Can(s, st)
  {
    match st
    case ClientSends(b) => s.(client := s.client + b)
    case OriginSends(b) => s.(answer := s.answer + b)
    case SniffRead(n) => s.(clientTaken := s.clientTaken + n)
    case SniffDone(port) =>
      var host := HostOf(s.setup, s.client[..s.clientTaken]).value;
      s.(ingress := Connecting(host, port, s.client[..s.clientTaken]), dest := Some(Destination(host, port)))
    case SendFrame(n) =>
      s.(up := s.up + Frame(s.ingress.host, s.ingress.port)[|s.up|..|s.up| + n])
    case ReadStatus =>
      if s.down[0] == STATUS_OK
      then s.(downTaken := 1, ingress := Replaying(s.ingress.host, s.ingress.port, s.ingress.raw, 0))
      else s.(downTaken := 1)
    case Redial =>
      s.(up := [], upTaken := 0, origin := [], answer := [], answerTaken := 0, down := [], downTaken := 0,
         relay := Framing)
    case Replay(n) =>
      s.(up := s.up + s.ingress.raw[s.ingress.replayed..s.ingress.replayed + n],
         ingress := s.ingress.(replayed := s.ingress.replayed + n))
    case StartSplice =>
      s.(ingress := Splicing(s.ingress.host, s.ingress.port, s.ingress.raw, NEW_LANE, NEW_LANE))
    case UpRead(n) =>
      s.(clientTaken := s.clientTaken + n,
         ingress := s.ingress.(up := AfterRead(s.ingress.up, s.client, s.clientTaken, n)))
    case UpWrite(n) =>
      s.(up := s.up + s.ingress.up.buf[..n], ingress := s.ingress.(up := AfterWrite(s.ingress.up, n)))
    case UpStop => s.(ingress := s.ingress.(up := Stopped(s.ingress.up)))
    case DownRead(n) =>
      s.(downTaken := s.downTaken + n,
         ingress := s.ingress.(down := AfterRead(s.ingress.down, s.down, s.downTaken, n)))
    case DownWrite(n) =>
      s.(delivered := s.delivered + s.ingress.down.buf[..n],
         ingress := s.ingress.(down := AfterWrite(s.ingress.down, n)))
    case DownStop => s.(ingress := s.ingress.(down := Stopped(s.ingress.down)))
    case CloseIngress => s.(ingress := IngressClosed)
    case FrameRead(n) => s.(upTaken := s.upTaken + n)
    case FrameDone => s.(relay := Resolving(s.upTaken))
    case Answer(status) =>
      s.(down := s.down + [status],
         relay := if status == STATUS_OK then Relaying(s.relay.frame, NEW_LANE, NEW_LANE) else RelayClosed)
    case OutRead(n) =>
      s.(upTaken := s.upTaken + n, relay := s.relay.(out := AfterRead(s.relay.out, s.up, s.upTaken, n)))
    case OutWrite(n) =>
      s.(origin := s.origin + s.relay.out.buf[..n], relay := s.relay.(out := AfterWrite(s.relay.out, n)))
    case OutStop => s.(relay := s.relay.(out := Stopped(s.relay.out)))
    case BackRead(n) =>
      s.(answerTaken := s.answerTaken + n,
         relay := s.relay.(back := AfterRead(s.relay.back, s.answer, s.answerTaken, n)))
    case BackWrite(n) =>
      s.(down := s.down + s.relay.back.buf[..n], relay := s.relay.(back := AfterWrite(s.relay.back, n)))
    case BackStop => s.(relay := s.relay.(back := Stopped(s.relay.back)))
    case CloseRelay => s.(relay := RelayClosed)
  }

  // ----- the invariant -----

  /** What a lane has moved is a prefix of what it has taken, and its counter is the length. */
  ghost predicate LaneOk(l: Lane, moved: Bytes, taken: Bytes) {
    && l.copied == |moved|
    && (l.running ==> moved + l.buf == taken)
    && (!l.running ==> moved <= taken)
  }

  lemma LaneReads(l: Lane, moved: Bytes, src: Bytes, from: nat, to: nat, n: nat)
    requires from <= to <= |src| && CanRead(l, src, to, n)
    requires LaneOk(l, moved, src[from..to])
    ensures LaneOk(AfterRead(l, src, to, n), moved, src[from..to + n])
  {
    assert src[from..to + n] == src[from..to] + src[to..to + n];
  }

  lemma LaneWrites(l: Lane, moved: Bytes, taken: Bytes, n: nat)
    requires CanWrite(l, n) && LaneOk(l, moved, taken)
    ensures LaneOk(AfterWrite(l, n), moved + l.buf[..n], taken)
  {
    assert moved + l.buf[..n] + l.buf[n..] == moved + l.buf;
  }

  lemma LaneStops(l: Lane, moved: Bytes, taken: Bytes)
    requires LaneOk(l, moved, taken)
    ensures LaneOk(Stopped(l), moved, taken)
  {
  }

  /** The frame this connection asks for. */
  ghost function FrameFor(s: State): Bytes {
    if s.dest.Some? && ValidHost(s.dest.value.host) then Frame(s.dest.value.host, s.dest.value.port) else []
  }

  ghost predicate SameDest(s: State, host: Bytes, port: int) {
    s.dest == Some(Destination(host, port)) && ValidHost(host)
  }

  /** While splicing, the tunnel holds the frame, the sniffed record, and what the lane has moved. */
  ghost predicate UpOk(s: State, f: Bytes, raw: Bytes, lane: Lane)
    requires s.clientTaken <= |s.client|
  {
    && |raw| <= s.clientTaken && raw == s.client[..|raw|]
    && |f| + |raw| <= |s.up| && s.up[..|f| + |raw|] == f + raw
    && LaneOk(lane, s.up[|f| + |raw|..], s.client[|raw|..s.clientTaken])
  }

  /** While splicing, the status byte has been consumed and the rest is copied to the client. */
  ghost predicate DownOk(s: State, lane: Lane)
    requires s.downTaken <= |s.down|
  {
    && 1 <= s.downTaken && s.down[0] == STATUS_OK
    && LaneOk(lane, s.delivered, s.down[1..s.downTaken])
  }

  /** What the ingress knows, in each of its phases. */
  ghost predicate IngressOk(s: State) {
    var f := FrameFor(s);
    && s.clientTaken <= |s.client| && s.downTaken <= |s.down|
    && match s.ingress
       case Sniffing => s.up == [] && s.down == [] && s.delivered == [] && s.dest == None
       case Connecting(host, port, raw) =>
         && SameDest(s, host, port) && raw == s.client[..s.clientTaken]
         && s.up <= f && s.delivered == []
       case Replaying(host, port, raw, replayed) =>
         && SameDest(s, host, port) && raw == s.client[..s.clientTaken]
         && replayed <= |raw| && s.up == f + raw[..replayed]
         && s.downTaken == 1 && s.down[0] == STATUS_OK && s.delivered == []
       case Splicing(host, port, raw, up, down) =>
         && SameDest(s, host, port) && UpOk(s, f, raw, up) && DownOk(s, down)
       case IngressClosed => true
  }

  /** What holds of the ingress's output in every phase. */
  ghost predicate IngressOutput(s: State) {
    && (s.up != [] ==> s.dest.Some? && ValidHost(s.dest.value.host) && s.up <= FrameFor(s) + s.client)
    && (s.delivered != [] ==> |s.down| >= 1 && s.down[0] == STATUS_OK && s.downTaken >= 1 && s.delivered <= s.down[1..])
  }

  /** What the relay knows, in each of its phases. */
  ghost predicate RelayOk(s: State) {
    && s.upTaken <= |s.up| && s.answerTaken <= |s.answer|
    && match s.relay
       case Framing => s.origin == [] && s.down == [] && s.answer == []
       case Resolving(frame) =>
         && s.origin == [] && s.down == [] && s.answerTaken == 0
         && frame == s.upTaken && s.up[..frame] == FrameFor(s) && s.dest.Some?
       case Relaying(frame, out, back) =>
         && frame <= s.upTaken && s.up[..frame] == FrameFor(s) && s.dest.Some?
         && LaneOk(out, s.origin, s.up[frame..s.upTaken])
         && |s.down| >= 1 && s.down[0] == STATUS_OK
         && LaneOk(back, s.down[1..], s.answer[..s.answerTaken])
       case RelayClosed => true
  }

  ghost predicate RelayOutput(s: State) {
    && (s.origin != [] ==>
          s.dest.Some? && |FrameFor(s)| <= |s.up| && s.up[..|FrameFor(s)|] == FrameFor(s)
          && s.origin <= s.up[|FrameFor(s)|..])
    && (s.down != [] ==> s.down[1..] <= s.answer)
  }

  ghost predicate Inv(s: State) {
    IngressOk(s) && IngressOutput(s) && RelayOk(s) && RelayOutput(s)
  }

  lemma InitInv(c: Setup)
    ensures Inv(Init(c))
  {
  }

  // ----- preservation, step by step -----

  lemma DestKept(s: State, t: State)
    requires t.dest == s.dest
    ensures FrameFor(t) == FrameFor(s)
  {
  }

  /** The relay's half looks only at the tunnel, the origin's bytes and the destination. */
  lemma RelayFrame(s: State, t: State)
    requires RelayOk(s) && RelayOutput(s)
    requires t == s.(client := t.client, clientTaken := t.clientTaken, downTaken := t.downTaken,
                     delivered := t.delivered, ingress := t.ingress)
    ensures RelayOk(t) && RelayOutput(t)
  {
    hide FrameFor, LaneOk;
    DestKept(s, t);
  }

  /** The ingress's half looks only at the tunnel, the client's bytes and the destination. */
  lemma IngressFrame(s: State, t: State)
    requires IngressOk(s) && IngressOutput(s)
    requires t == s.(upTaken := t.upTaken, origin := t.origin, answer := t.answer,
                     answerTaken := t.answerTaken, relay := t.relay)
    ensures IngressOk(t) && IngressOutput(t)
  {
    hide FrameFor, LaneOk;
    DestKept(s, t);
  }

  lemma ClientSendsStep(s: State, st: Step)
    requires Inv(s) && Can(s, st) && st.ClientSends?
    ensures Inv(Do(s, st))
  {
    hide RelayOk, RelayOutput, HostOf, FrameFor, LaneOk;
    var t := Do(s, st);
    assert t == s.(client := s.client + st.bytes);
    hide Do, Can;
    DestKept(s, t);
    RelayFrame(s, t);
    assert t.client[..s.clientTaken] == s.client[..s.clientTaken];
    if s.ingress.Splicing? {
      assert t.client[..|s.ingress.raw|] == s.client[..|s.ingress.raw|];
      assert t.client[|s.ingress.raw|..s.clientTaken] == s.client[|s.ingress.raw|..s.clientTaken];
      assert UpOk(t, FrameFor(t), s.ingress.raw, s.ingress.up) && DownOk(t, s.ingress.down);
      hide UpOk, DownOk;
    }
    assert IngressOutput(t) by {
      hide UpOk, DownOk, IngressOk;
      assert FrameFor(s) + t.client == FrameFor(s) + s.client + st.bytes;
    }
    hide IngressOutput;
  }

  lemma OriginSendsStep(s: State, st: Step)
    requires Inv(s) && Can(s, st) && st.OriginSends?
    ensures Inv(Do(s, st))
  {
    hide HostOf, IngressOk, IngressOutput;
    var t := Do(s, st);
    IngressFrame(s, t);
    assert t.answer[..s.answerTaken] == s.answer[..s.answerTaken];
  }

  lemma SniffReadStep(s: State, st: Step)
    requires Inv(s) && Can(s, st) && st.SniffRead?
    ensures Inv(Do(s, st))
  {
    hide HostOf, RelayOk, RelayOutput;
    RelayFrame(s, Do(s, st));
  }

  lemma SniffDoneStep(s: State, st: Step)
    requires Inv(s) && Can(s, st) && st.SniffDone?
    ensures Inv(Do(s, st))
  {
    HostFits(s.setup, s.client[..s.clientTaken]);
    hide HostOf;
    assert s.relay.Framing? || s.relay.RelayClosed?;
  }

  /** A relay that has moved bytes or finished its frame had a whole frame to read. */
  lemma NoBytesWithinFrame(s: State)
    requires Inv(s) && s.ingress.Connecting?
    ensures s.origin == []
  {
    if s.relay.Relaying? {
      assert s.up[s.relay.frame..s.upTaken] == [];
    }
    assert |s.up| <= |FrameFor(s)|;
  }

  lemma ConnectSteps(s: State, st: Step)
    requires Inv(s) && Can(s, st) && (st.SendFrame? || st.ReadStatus? || st.Redial?)
    ensures Inv(Do(s, st))
  {
    hide HostOf;
    var t := Do(s, st);
    var f := FrameFor(s);
    if st.SendFrame? {
      assert t.up == f[..|s.up| + st.n];
      assert t.up[..s.upTaken] == s.up[..s.upTaken];
      if s.relay.Relaying? || s.relay.Resolving? {
        assert t.up[..s.relay.frame] == s.up[..s.relay.frame];
        assert s.up == f && t.up == s.up;
      }
      NoBytesWithinFrame(s);
    } else if st.ReadStatus? {
      assert s.up == f + s.ingress.raw[..0];
    }
  }

  lemma ReplayStep(s: State, st: Step)
    requires Inv(s) && Can(s, st) && st.Replay?
    ensures Inv(Do(s, st))
  {
    hide HostOf;
    var t := Do(s, st);
    var f, raw, done := FrameFor(s), s.ingress.raw, s.ingress.replayed;
    assert t == s.(up := s.up + raw[done..done + st.n], ingress := s.ingress.(replayed := done + st.n));
    assert FrameFor(t) == f;
    hide Do, Can, RelayOk, RelayOutput, PeekOf, FrameFor;
    assert t.up == f + raw[..done + st.n];
    assert raw[..done + st.n] <= s.client;
    UpGrows(s, t);
  }

  lemma StartSpliceStep(s: State, st: Step)
    requires Inv(s) && Can(s, st) && st.StartSplice?
    ensures Inv(Do(s, st))
  {
    hide HostOf, RelayOk, RelayOutput, PeekOf, FrameFor;
    var t := Do(s, st);
    var f, raw := FrameFor(s), s.ingress.raw;
    assert t == s.(ingress := Splicing(s.ingress.host, s.ingress.port, raw, NEW_LANE, NEW_LANE));
    hide Do, Can;
    DestKept(s, t);
    RelayFrame(s, t);
    assert raw[..|raw|] == raw;
    assert t.up[|f| + |raw|..] == [] && t.client[|raw|..s.clientTaken] == [];
    assert s.down[1..1] == [];
    assert UpOk(t, f, raw, NEW_LANE) && DownOk(t, NEW_LANE);
    hide UpOk, DownOk, LaneOk, IngressOutput;
  }

  /** Bytes appended to the tunnel do not disturb the relay's view of it. */
  lemma UpGrows(s: State, t: State)
    requires RelayOk(s) && RelayOutput(s)
    requires s.up <= t.up && t == s.(up := t.up, ingress := t.ingress)
    ensures RelayOk(t) && RelayOutput(t)
  {
    assert t.up[..s.upTaken] == s.up[..s.upTaken];
    if s.relay.Relaying? {
      assert t.up[..s.relay.frame] == s.up[..s.relay.frame];
      assert t.up[s.relay.frame..s.upTaken] == s.up[s.relay.frame..s.upTaken];
    }
    if s.origin != [] {
      var n := |FrameFor(s)|;
      assert t.up[..n] == s.up[..n];
      assert t.up[n..][..|s.up| - n] == s.up[n..];
    }
  }

  lemma UpReads(s: State, t: State, f: Bytes, raw: Bytes, lane: Lane, n: nat)
    requires s.clientTaken <= |s.client| && UpOk(s, f, raw, lane) && CanRead(lane, s.client, s.clientTaken, n)
    requires t.client == s.client && t.up == s.up && t.clientTaken == s.clientTaken + n
    ensures UpOk(t, f, raw, AfterRead(lane, s.client, s.clientTaken, n))
  {
    hide LaneOk;
    LaneReads(lane, s.up[|f| + |raw|..], s.client, |raw|, s.clientTaken, n);
  }

  lemma UpReadStep(s: State, st: Step)
    requires Inv(s) && Can(s, st) && (st.UpRead? || st.UpStop?)
    ensures Inv(Do(s, st))
  {
    hide HostOf, LaneOk, FrameFor, PeekOf;
    var t := Do(s, st);
    var lane, raw, f := s.ingress.up, s.ingress.raw, FrameFor(s);
    assert t == s.(clientTaken := t.clientTaken, ingress := s.ingress.(up := t.ingress.up));
    DestKept(s, t);
    if st.UpRead? {
      UpReads(s, t, f, raw, lane, st.n);
    } else {
      LaneStops(lane, s.up[|f| + |raw|..], s.client[|raw|..s.clientTaken]);
    }
    assert UpOk(t, f, raw, t.ingress.up);
    hide Do, Can, RelayOk, RelayOutput, UpOk;
    RelayFrame(s, t);
    DownUntouched(s, t);
  }

  lemma DownUntouched(s: State, t: State)
    requires s.ingress.Splicing? && t.ingress.Splicing? && s.ingress.down == t.ingress.down
    requires s.down == t.down && s.downTaken == t.downTaken <= |s.down| && s.delivered == t.delivered
    requires DownOk(s, s.ingress.down)
    ensures DownOk(t, t.ingress.down)
  {
  }

  lemma UpUntouched(s: State, t: State, f: Bytes)
    requires s.ingress.Splicing? && t.ingress.Splicing?
    requires s.ingress.up == t.ingress.up && s.ingress.raw == t.ingress.raw
    requires s.up == t.up && s.client == t.client && s.clientTaken == t.clientTaken <= |s.client|
    requires UpOk(s, f, s.ingress.raw, s.ingress.up)
    ensures UpOk(t, f, t.ingress.raw, t.ingress.up)
  {
  }

  lemma UpWriteStep(s: State, st: Step)
    requires Inv(s) && Can(s, st) && st.UpWrite?
    ensures Inv(Do(s, st))
  {
    hide HostOf;
    var t := Do(s, st);
    var f, raw, lane := FrameFor(s), s.ingress.raw, s.ingress.up;
    assert t == s.(up := s.up + lane.buf[..st.n], ingress := s.ingress.(up := AfterWrite(lane, st.n)));
    assert FrameFor(t) == f;
    assert UpOk(t, f, raw, t.ingress.up) by {
      hide RelayOk, RelayOutput, PeekOf, Frame, DownOk, LaneOk, Do;
      var base := |f| + |raw|;
      LaneWrites(lane, s.up[base..], s.client[|raw|..s.clientTaken], st.n);
      assert t.up[base..] == s.up[base..] + lane.buf[..st.n];
      assert t.up[..base] == s.up[..base];
    }
    hide Do, Can, RelayOk, RelayOutput, FrameFor, UpOk;
    UpGrows(s, t);
    DownUntouched(s, t);
    UpIsReplayed(t);
  }

  /** While splicing, the tunnel holds the frame and then a prefix of the client's bytes. */
  lemma UpIsReplayed(s: State)
    requires IngressOk(s) && s.ingress.Splicing?
    ensures s.up <= FrameFor(s) + s.client
  {
    var f, raw := FrameFor(s), s.ingress.raw;
    var moved := s.up[|f| + |raw|..];
    var taken := s.client[|raw|..s.clientTaken];
    assert moved <= taken;
    assert s.up == f + raw + moved;
    assert s.client == raw + taken + s.client[s.clientTaken..];
    assert raw + moved <= s.client;
  }

  lemma DownReadStep(s: State, st: Step)
    requires Inv(s) && Can(s, st) && (st.DownRead? || st.DownStop?)
    ensures Inv(Do(s, st))
  {
    hide HostOf;
    var t := Do(s, st);
    assert t == s.(downTaken := t.downTaken, ingress := t.ingress);
    assert t.ingress == s.ingress.(down := t.ingress.down);
    var f, lane := FrameFor(s), s.ingress.down;
    assert FrameFor(t) == f;
    assert DownOk(t, t.ingress.down) by {
      hide RelayOk, RelayOutput, PeekOf, Frame, UpOk, LaneOk;
      if st.DownRead? {
        LaneReads(lane, s.delivered, s.down, 1, s.downTaken, st.n);
      } else {
        LaneStops(lane, s.delivered, s.down[1..s.downTaken]);
      }
    }
    assert t.downTaken >= s.downTaken;
    hide Do, Can, RelayOk, RelayOutput, FrameFor, DownOk;
    RelayFrame(s, t);
    UpUntouched(s, t, f);
  }

  lemma DownWriteStep(s: State, st: Step)
    requires Inv(s) && Can(s, st) && st.DownWrite?
    ensures Inv(Do(s, st))
  {
    hide HostOf;
    var t := Do(s, st);
    var f, lane := FrameFor(s), s.ingress.down;
    assert t == s.(delivered := s.delivered + lane.buf[..st.n], ingress := s.ingress.(down := AfterWrite(lane, st.n)));
    assert FrameFor(t) == f;
    assert DownOk(t, t.ingress.down) && t.delivered <= t.down[1..] && s.downTaken >= 1 by {
      hide RelayOk, RelayOutput, PeekOf, Frame, UpOk, Do;
      var taken := s.down[1..s.downTaken];
      LaneWrites(lane, s.delivered, taken, st.n);
      assert t.delivered <= taken;
      assert taken <= s.down[1..];
    }
    assert s.down[0] == STATUS_OK;
    hide Do, Can, RelayOk, RelayOutput, FrameFor, DownOk;
    RelayFrame(s, t);
    UpUntouched(s, t, f);
  }

  lemma FrameSteps(s: State, st: Step)
    requires Inv(s) && Can(s, st) && (st.FrameRead? || st.FrameDone?)
    ensures Inv(Do(s, st))
  {
    hide HostOf, LaneOk;
    var t := Do(s, st);
    assert t == s.(upTaken := t.upTaken, relay := t.relay);
    IngressFrame(s, t);
    hide IngressOk;
    if st.FrameDone? {
      var data := s.up[..s.upTaken];
      AcceptedIsFrame(data);
      assert data <= FrameFor(s) + s.client;
      FrameUnique(s.dest.value.host, s.dest.value.port, data);
      hide FrameOf, Frame;
    }
    hide IngressOutput;
  }

  /** The relay answers once, to a tunnel that has carried nothing back yet. */
  lemma AnswerToIngress(s: State, t: State, status: Byte)
    requires IngressOk(s) && IngressOutput(s) && s.down == [] && s.dest.Some?
    requires t == s.(down := [status], relay := t.relay)
    ensures IngressOk(t) && IngressOutput(t)
  {
    hide PeekOf, Frame, UpOk, LaneOk;
    assert FrameFor(s) == FrameFor(t);
    assert !s.ingress.Replaying? && !s.ingress.Splicing?;
  }

  lemma AnswerStep(s: State, st: Step)
    requires Inv(s) && Can(s, st) && st.Answer?
    ensures Inv(Do(s, st))
  {
    hide HostOf, IngressOk, IngressOutput, PeekOf, Frame;
    var t := Do(s, st);
    AnswerToIngress(s, t, st.status);
    assert FrameFor(s) == FrameFor(t);
    assert t.down == [st.status] && t.down[1..] == [];
    assert s.up[s.upTaken..s.upTaken] == [] && s.answer[..0] == [];
    hide FrameFor;
  }

  lemma OutSteps(s: State, st: Step)
    requires Inv(s) && Can(s, st) && (st.OutRead? || st.OutWrite? || st.OutStop?)
    ensures Inv(Do(s, st))
  {
    hide HostOf, IngressOk, IngressOutput, FrameFor;
    var t := Do(s, st);
    assert t == s.(upTaken := t.upTaken, origin := t.origin, relay := t.relay);
    DestKept(s, t);
    IngressFrame(s, t);
    var lane, frame := s.relay.out, s.relay.frame;
    var taken := s.up[frame..s.upTaken];
    match st {
      case OutRead(n) =>
        hide LaneOk;
        LaneReads(lane, s.origin, s.up, frame, s.upTaken, n);
      case OutWrite(n) =>
        LaneWrites(lane, s.origin, taken, n);
        assert t.origin <= taken;
        assert taken <= s.up[frame..];
      case OutStop =>
        hide LaneOk;
        LaneStops(lane, s.origin, taken);
    }
  }

  lemma BackReadStep(s: State, st: Step)
    requires Inv(s) && Can(s, st) && (st.BackRead? || st.BackStop?)
    ensures Inv(Do(s, st))
  {
    hide HostOf, IngressOk, IngressOutput;
    IngressFrame(s, Do(s, st));
    var lane := s.relay.back;
    if st.BackRead? {
      LaneReads(lane, s.down[1..], s.answer, 0, s.answerTaken, st.n);
    } else {
      LaneStops(lane, s.down[1..], s.answer[..s.answerTaken]);
    }
  }

  lemma BackWriteStep(s: State, st: Step)
    requires Inv(s) && Can(s, st) && st.BackWrite?
    ensures Inv(Do(s, st))
  {
    hide HostOf, IngressOk, IngressOutput;
    var t := Do(s, st);
    var lane, taken := s.relay.back, s.answer[..s.answerTaken];
    DownGrows(s, t);
    LaneWrites(lane, s.down[1..], taken, st.n);
    assert t.down[1..] == s.down[1..] + lane.buf[..st.n];
    assert t.down[1..] <= taken;
  }

  /** Bytes appended to the tunnel's way back do not disturb the ingress's view of it. */
  lemma DownGrows(s: State, t: State)
    requires IngressOk(s) && IngressOutput(s)
    requires s.down != [] && s.down <= t.down && t == s.(down := t.down, relay := t.relay)
    ensures IngressOk(t) && IngressOutput(t)
  {
    assert t.down[0] == s.down[0];
    if s.ingress.Splicing? {
      assert t.down[1..s.downTaken] == s.down[1..s.downTaken];
    }
    if s.delivered != [] {
      assert s.down[1..] <= t.down[1..];
    }
  }

  lemma StepKeepsInv(s: State, st: Step)
    requires Inv(s) && Can(s, st)
    ensures Inv(Do(s, st))
  {
    hide IngressOk, IngressOutput, RelayOk, RelayOutput;
    match st {
      case ClientSends(_) => ClientSendsStep(s, st);
      case OriginSends(_) => OriginSendsStep(s, st);
      case SniffRead(_) => SniffReadStep(s, st);
      case SniffDone(_) => SniffDoneStep(s, st);
      case SendFrame(_) => ConnectSteps(s, st);
      case ReadStatus => ConnectSteps(s, st);
      case Redial => ConnectSteps(s, st);
      case Replay(_) => ReplayStep(s, st);
      case StartSplice => StartSpliceStep(s, st);
      case UpRead(_) => UpReadStep(s, st);
      case UpWrite(_) => UpWriteStep(s, st);
      case UpStop => UpReadStep(s, st);
      case DownRead(_) => DownReadStep(s, st);
      case DownWrite(_) => DownWriteStep(s, st);
      case DownStop => DownReadStep(s, st);
      case CloseIngress => CloseSteps(s, st);
      case FrameRead(_) => FrameSteps(s, st);
      case FrameDone => FrameSteps(s, st);
      case Answer(_) => AnswerStep(s, st);
      case OutRead(_) => OutSteps(s, st);
      case OutWrite(_) => OutSteps(s, st);
      case OutStop => OutSteps(s, st);
      case BackRead(_) => BackReadStep(s, st);
      case BackWrite(_) => BackWriteStep(s, st);
      case BackStop => BackReadStep(s, st);
      case CloseRelay => CloseSteps(s, st);
    }
  }

  lemma CloseSteps(s: State, st: Step)
    requires Inv(s) && Can(s, st) && (st.CloseIngress? || st.CloseRelay?)
    ensures Inv(Do(s, st))
  {
    hide HostOf;
    if st.CloseIngress? {
      hide RelayOk, RelayOutput;
      RelayFrame(s, Do(s, st));
    } else {
      hide IngressOk, IngressOutput;
      IngressFrame(s, Do(s, st));
    }
  }

  // ----- whole runs -----

  predicate Runs(s: State, steps: seq<Step>)
    decreases |steps|
  {
    steps == [] || (Can(s, steps[0]) && Runs(Do(s, steps[0]), steps[1..]))
  }

  function End(s: State, steps: seq<Step>): State
    requires Runs(s, steps)
    decreases |steps|
  {
    if steps == [] then s else End(Do(s, steps[0]), steps[1..])
  }

  lemma {:induction false} RunKeepsInv(s: State, steps: seq<Step>)
    requires Inv(s) && Runs(s, steps)
    ensures Inv(End(s, steps))
    decreases |steps|
  {
    if steps != [] {
      StepKeepsInv(s, steps[0]);
      RunKeepsInv(Do(s, steps[0]), steps[1..]);
    }
  }

  /**
   * At every point of every run the origin has received a prefix of what the client sent
   * and the client a prefix of what the origin sent; nothing reaches the client before a
   * positive status byte, which is consumed once and never delivered; and no attempt at a
   * relay that has not yet answered has passed on a byte.
   */
  lemma BytesPassThrough(c: Setup, steps: seq<Step>)
    requires Runs(Init(c), steps)
    ensures var s := End(Init(c), steps);
            && s.origin <= s.client
            && s.delivered <= s.answer
            && (s.delivered != [] ==> s.downTaken >= 1 && |s.down| >= 1 && s.down[0] == STATUS_OK && s.delivered <= s.down[1..])
            && (s.ingress.Connecting? ==> s.origin == [])
  {
    InitInv(c);
    RunKeepsInv(Init(c), steps);
    var s := End(Init(c), steps);
    if s.origin != [] {
      var f := FrameFor(s);
      assert s.up[|f|..] <= s.client by {
        assert (f + s.client)[|f|..] == s.client;
        assert s.up <= f + s.client;
      }
    }
    if s.ingress.Connecting? {
      NoBytesWithinFrame(s);
    }
  }

  /**
   * The splice counters are exact: the relay's equal the bytes the origin received and the
   * bytes sent back behind the status; the ingress's equal the bytes the client received
   * and, with the replayed record added, the bytes sent up behind the frame.
   */
  lemma CountersAreDeliveries(c: Setup, steps: seq<Step>)
    requires Runs(Init(c), steps)
    ensures var s := End(Init(c), steps);
            && (s.relay.Relaying? ==> s.relay.out.copied == |s.origin| && s.relay.back.copied == |s.down| - 1)
            && (s.ingress.Splicing? ==>
                  && s.ingress.down.copied == |s.delivered|
                  && s.ingress.up.copied + |s.ingress.raw| == |s.up| - |FrameFor(s)|)
  {
    InitInv(c);
    RunKeepsInv(Init(c), steps);
  }

  /** A lane that is running with nothing buffered and nothing left to take. */
  predicate Drained(l: Lane, src: Bytes, taken: nat) {
    l.running && l.buf == [] && taken == |src|
  }

  /** Once everything is drained and no side has stopped, nothing is missing on either end. */
  lemma NothingIsLost(c: Setup, steps: seq<Step>)
    requires Runs(Init(c), steps)
    requires var s := End(Init(c), steps);
             && s.ingress.Splicing? && s.relay.Relaying?
             && Drained(s.ingress.up, s.client, s.clientTaken) && Drained(s.relay.out, s.up, s.upTaken)
             && Drained(s.relay.back, s.answer, s.answerTaken) && Drained(s.ingress.down, s.down, s.downTaken)
    ensures var s := End(Init(c), steps);
            s.origin == s.client && s.delivered == s.answer
  {
    InitInv(c);
    RunKeepsInv(Init(c), steps);
    var s := End(Init(c), steps);
    var f, raw := FrameFor(s), s.ingress.raw;
    assert s.relay.frame == |f|;
    assert s.up == f + raw + s.up[|f| + |raw|..];
    assert s.client == raw + s.client[|raw|..];
    assert s.up == f + s.client;
    assert s.up[|f|..s.upTaken] == s.client;
    assert s.down[1..s.downTaken] == s.down[1..];
  }

  /** What the ingress replays is the very record it sniffed: the first bytes of the client. */
  lemma ReplayedRecordIsSniffed(c: Setup, steps: seq<Step>)
    requires Runs(Init(c), steps)
    ensures var s := End(Init(c), steps);
            s.ingress.Splicing? ==>
              && |s.ingress.raw| <= |s.client| && s.ingress.raw == s.client[..|s.ingress.raw|]
              && FrameFor(s) + s.ingress.raw <= s.up
  {
    InitInv(c);
    RunKeepsInv(Init(c), steps);
  }

  // ----- where the bytes go -----

  /** The destination is the host named by a first part of what the client sent: while the ingress holds a record, that one. */
  ghost predicate Named(s: State) {
    && (s.dest.Some? ==> exists k: nat :: k <= |s.client| && HostOf(s.setup, s.client[..k]) == Some(s.dest.value.host))
    && (s.ingress.Connecting? || s.ingress.Replaying? || s.ingress.Splicing? ==>
          HostOf(s.setup, s.ingress.raw) == Some(s.ingress.host))
  }

  lemma NamedStep(s: State, st: Step)
    requires Named(s) && Can(s, st)
    ensures Named(Do(s, st))
  {
    hide HostOf;
    var t := Do(s, st);
    if st.SniffDone? {
      assert t.client[..s.clientTaken] == s.client[..s.clientTaken];
    } else if s.dest.Some? {
      var k: nat :| k <= |s.client| && HostOf(s.setup, s.client[..k]) == Some(s.dest.value.host);
      assert t.client[..k] == s.client[..k];
    }
  }

  lemma {:induction false} NamedRun(s: State, steps: seq<Step>)
    requires Named(s) && Runs(s, steps)
    ensures Named(End(s, steps)) && End(s, steps).setup == s.setup
    decreases |steps|
  {
    if steps != [] {
      NamedStep(s, steps[0]);
      SetupKept(s, steps[0]);
      hide Named, Can, Do;
      NamedRun(Do(s, steps[0]), steps[1..]);
    }
  }

  lemma SetupKept(s: State, st: Step)
    requires Can(s, st)
    ensures Do(s, st).setup == s.setup
  {
    hide HostOf;
  }

  /**
   * A relay that has read its frame connects to the normalised name of a record that the
   * client's bytes begin with; and while the ingress holds a record, it is that one.
   */
  lemma ConnectsToTheNameSniffed(c: Setup, steps: seq<Step>)
    requires Runs(Init(c), steps)
    ensures var s := End(Init(c), steps);
            && (s.relay.Resolving? || s.relay.Relaying? ==>
                  s.relay.frame <= |s.up| && s.dest.Some?
                  && FrameOf(s.up[..s.relay.frame]).0 == Ok(Destination(s.dest.value.host, s.dest.value.port % 65536))
                  && exists k: nat :: k <= |s.client| && HostOf(c, s.client[..k]) == Some(s.dest.value.host))
            && (s.ingress.Connecting? || s.ingress.Replaying? || s.ingress.Splicing? ==>
                  s.dest == Some(Destination(s.ingress.host, s.ingress.port)) && HostOf(c, s.ingress.raw) == Some(s.ingress.host))
  {
    InitInv(c);
    RunKeepsInv(Init(c), steps);
    NamedRun(Init(c), steps);
    var s := End(Init(c), steps);
    if s.relay.Resolving? || s.relay.Relaying? {
      var k: nat :| k <= |s.client| && HostOf(s.setup, s.client[..k]) == Some(s.dest.value.host);
      HostFits(c, s.client[..k]);
      FrameRoundTrip(s.dest.value.host, s.dest.value.port, []);
      assert FrameFor(s) + [] == FrameFor(s);
    }
  }
}
