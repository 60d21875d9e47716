/**
 * Reading the server name out of a TLS ClientHello (sections 4.1.2, 4.2 and 5.1 of
 * RFC 8446, section 3 of RFC 6066) without disturbing the bytes.
 */
module ClientHello {
  import opened Collections
  import opened Streams

  datatype SniError = NotTls | NoSni | TooLarge | Incomplete

  type Name = Result<Bytes, SniError>

  /** The library's lower-casing of a name. */
  type Lowering = Bytes -> Bytes

  function U16(b: Bytes, i: nat): nat
    requires i + 1 < |b|
  {
    b[i] as int * 256 + b[i + 1]
  }

  // ----- skipping length-prefixed fields -----

  function SkipU8(b: Bytes): Option<Bytes> {
    if |b| < 1 || 1 + b[0] > |b| then None else Some(b[1 + b[0]..])
  }

  function SkipU16(b: Bytes): Option<Bytes> {
    if |b| < 2 || 2 + U16(b, 0) > |b| then None else Some(b[2 + U16(b, 0)..])
  }

  // ----- the parser as a function -----

  /** Scans a server name list for the first host name. */
  function ScanNames(b: Bytes): Name
    decreases |b|
  {
    if |b| < 3 then Err(NoSni)
    else
      var l := U16(b, 1);
      if l > |b| - 3 then Err(Incomplete)
      else if b[0] == 0 then Ok(b[3..3 + l])
      else ScanNames(b[3 + l..])
  }

  function ParseSniExtension(b: Bytes): Name {
    if |b| < 2 then Err(Incomplete)
    else
      var l := U16(b, 0);
      if l > |b| - 2 then Err(Incomplete) else ScanNames(b[2..2 + l])
  }

  /** Scans an extension block for the first server_name extension. */
  function ScanExtensions(b: Bytes): Name
    decreases |b|
  {
    if |b| < 4 then Err(NoSni)
    else
      var l := U16(b, 2);
      if l > |b| - 4 then Err(Incomplete)
      else if U16(b, 0) == 0 then ParseSniExtension(b[4..4 + l])
      else ScanExtensions(b[4 + l..])
  }

  function ParseAfterFields(b: Bytes): Name {
    if |b| < 2 then Err(NoSni)
    else
      var l := U16(b, 0);
      if l > |b| - 2 then Err(Incomplete) else ScanExtensions(b[2..2 + l])
  }

  /** What follows version and random: session id, cipher suites, compression, extensions. */
  function ParseFields(b: Bytes): Name {
    match SkipU8(b)
    case None => Err(Incomplete)
    case Some(suites) =>
      match SkipU16(suites)
      case None => Err(Incomplete)
      case Some(compression) =>
        match SkipU8(compression)
        case None => Err(Incomplete)
        case Some(rest) => ParseAfterFields(rest)
  }

  function U24(b: Bytes, i: nat): nat
    requires i + 2 < |b|
  {
    b[i] as int * 65536 + b[i + 1] as int * 256 + b[i + 2]
  }

  function Parse(b: Bytes): Name {
    if |b| < 4 || b[0] != 1 then Err(NotTls)
    else
      var hl := U24(b, 1);
      if hl > |b| - 4 || hl < 34 then Err(Incomplete)
      else ParseFields(b[4..4 + hl][34..])
  }

  // ----- the parser as it runs -----

  method ParseSni(ext: Bytes) returns (r: Name)
    ensures r == ParseSniExtension(ext)
  {
    var b := ext;
    if |b| < 2 { return Err(Incomplete); }
    var listLen := U16(b, 0);
    b := b[2..];
    if listLen > |b| { return Err(Incomplete); }
    b := b[..listLen];
    assert b == ext[2..2 + listLen];
    while |b| >= 3
      invariant ScanNames(b) == ParseSniExtension(ext)
      decreases |b|
    {
      var nameType := b[0];
      var l := U16(b, 1);
      ghost var before := b;
      b := b[3..];
      if l > |b| { return Err(Incomplete); }
      assert b[..l] == before[3..3 + l] && b[l..] == before[3 + l..];
      if nameType == 0 { return Ok(b[..l]); }
      b := b[l..];
    }
    return Err(NoSni);
  }

  method ParseClientHello(body: Bytes) returns (r: Name)
    ensures r == Parse(body)
  {
    var b := body;
    if |b| < 4 || b[0] != 1 { return Err(NotTls); }
    var hl := U24(b, 1);
    b := b[4..];
    if hl > |b| { return Err(Incomplete); }
    b := b[..hl];
    assert b == body[4..4 + hl];
    if |b| < 34 { return Err(Incomplete); }
    b := b[34..];
    assert Parse(body) == ParseFields(b);
    var sid := SkipU8(b);
    if sid.None? { return Err(Incomplete); }
    var suites := SkipU16(sid.value);
    if suites.None? { return Err(Incomplete); }
    var compression := SkipU8(suites.value);
    if compression.None? { return Err(Incomplete); }
    b := compression.value;
    if |b| < 2 { return Err(NoSni); }
    var extLen := U16(b, 0);
    ghost var fields := b;
    b := b[2..];
    if extLen > |b| { return Err(Incomplete); }
    b := b[..extLen];
    assert b == fields[2..2 + extLen];
    while |b| >= 4
      invariant ScanExtensions(b) == Parse(body)
      decreases |b|
    {
      var typ := U16(b, 0);
      var l := U16(b, 2);
      ghost var before := b;
      b := b[4..];
      if l > |b| { return Err(Incomplete); }
      assert b[..l] == before[4..4 + l] && b[l..] == before[4 + l..];
      if typ == 0 {
        r := ParseSni(b[..l]);
        return;
      }
      b := b[l..];
    }
    return Err(NoSni);
  }

  // ----- the grammar -----

  /** An extension before server_name, or a list entry before the host name. */
  datatype Tagged = Tagged(tag: nat, data: Bytes)

  /**
   * The extension block up to and including the host name. The `after` fields hold
   * whatever follows inside each enclosing length: the rest of the name list, of the
   * extension, of the block, and of the handshake message behind the block.
   */
  datatype Extensions = Extensions(
    before: seq<Tagged>, namesBefore: seq<Tagged>, host: Bytes,
    afterNames: Bytes, afterList: Bytes, afterSni: Bytes, afterBlock: Bytes)

  /** A ClientHello, and whatever else its record holds. */
  datatype Hello = Hello(
    versionAndRandom: Bytes, sessionId: Bytes, suites: Bytes, compression: Bytes,
    ext: Extensions, afterHandshake: Bytes)

  function PutU16(n: nat): Bytes
    requires n < 65536
  {
    [n / 256, n % 256]
  }

  function PutU24(n: nat): Bytes
    requires n < 16777216
  {
    [n / 65536, n / 256 % 256, n % 256]
  }

  ghost predicate TagsBelow(ts: seq<Tagged>, bound: nat) {
    forall k :: 0 <= k < |ts| ==> 0 < ts[k].tag < bound && |ts[k].data| < 65536
  }

  /** Name list entries: one byte of type, two of length. */
  ghost function PutNames(ts: seq<Tagged>, tail: Bytes): Bytes
    requires TagsBelow(ts, 256)
  {
    if ts == [] then tail
    else [ts[0].tag] + PutU16(|ts[0].data|) + ts[0].data + PutNames(ts[1..], tail)
  }

  /** Extensions: two bytes of type, two of length. */
  ghost function PutExtensions(ts: seq<Tagged>, tail: Bytes): Bytes
    requires TagsBelow(ts, 65536)
  {
    if ts == [] then tail
    else PutU16(ts[0].tag) + PutU16(|ts[0].data|) + ts[0].data + PutExtensions(ts[1..], tail)
  }

  ghost predicate WellTagged(x: Extensions) {
    TagsBelow(x.before, 65536) && TagsBelow(x.namesBefore, 256) && |x.host| < 65536
  }

  ghost function NameList(x: Extensions): Bytes
    requires WellTagged(x)
  {
    PutNames(x.namesBefore, [0] + PutU16(|x.host|) + x.host + x.afterNames)
  }

  ghost function SniData(x: Extensions): Bytes
    requires WellTagged(x) && |NameList(x)| < 65536
  {
    PutU16(|NameList(x)|) + NameList(x) + x.afterList
  }

  ghost function Block(x: Extensions): Bytes
    requires WellTagged(x) && |NameList(x)| < 65536 && |SniData(x)| < 65536
  {
    PutExtensions(x.before, [0, 0] + PutU16(|SniData(x)|) + SniData(x) + x.afterSni)
  }

  ghost predicate BlockFits(x: Extensions) {
    WellTagged(x) && |NameList(x)| < 65536 && |SniData(x)| < 65536 && |Block(x)| < 65536
  }

  /** The extension block with its length, and the rest of the handshake message. */
  ghost function Tail(x: Extensions): Bytes
    requires BlockFits(x)
  {
    PutU16(|Block(x)|) + Block(x) + x.afterBlock
  }

  ghost predicate FieldsFit(h: Hello) {
    && |h.versionAndRandom| == 34
    && |h.sessionId| < 256 && |h.suites| < 65536 && |h.compression| < 256
    && BlockFits(h.ext)
  }

  /** Everything after version and random. */
  ghost function Fields(sid: Bytes, suites: Bytes, compression: Bytes, tail: Bytes): Bytes
    requires |sid| < 256 && |suites| < 65536 && |compression| < 256
  {
    [|sid|] + sid + (PutU16(|suites|) + suites + ([|compression|] + compression + tail))
  }

  ghost function Handshake(h: Hello): Bytes
    requires FieldsFit(h)
  {
    h.versionAndRandom + Fields(h.sessionId, h.suites, h.compression, Tail(h.ext))
  }

  /** Every length fits its field. */
  ghost predicate Fits(h: Hello) {
    FieldsFit(h) && |Handshake(h)| < 16777216
  }

  ghost function Serialize(h: Hello): Bytes
    requires Fits(h)
  {
    [1] + PutU24(|Handshake(h)|) + Handshake(h) + h.afterHandshake
  }

  // ----- the parser accepts the grammar -----

  lemma U16OfPut(n: nat, pre: Bytes, rest: Bytes)
    requires n < 65536
    ensures U16(pre + PutU16(n) + rest, |pre|) == n
  {
    var b := pre + PutU16(n) + rest;
    assert b[|pre|] == n / 256 && b[|pre| + 1] == n % 256;
  }

  lemma {:induction false} ScanNamesAccepts(ts: seq<Tagged>, host: Bytes, after: Bytes)
    requires TagsBelow(ts, 256) && |host| < 65536
    ensures ScanNames(PutNames(ts, [0] + PutU16(|host|) + host + after)) == Ok(host)
  {
    var tail := [0] + PutU16(|host|) + host + after;
    var b := PutNames(ts, tail);
    if ts == [] {
      U16OfPut(|host|, [0], host + after);
      assert tail == [0] + PutU16(|host|) + (host + after);
      assert b[3..3 + |host|] == host;
    } else {
      var t := ts[0];
      var rest := PutNames(ts[1..], tail);
      U16OfPut(|t.data|, [t.tag], t.data + rest);
      assert b == [t.tag] + PutU16(|t.data|) + (t.data + rest);
      assert b[3 + |t.data|..] == rest;
      ScanNamesAccepts(ts[1..], host, after);
    }
  }

  lemma {:induction false} ScanExtensionsAccepts(ts: seq<Tagged>, sni: Bytes, after: Bytes)
    requires TagsBelow(ts, 65536) && |sni| < 65536
    ensures ScanExtensions(PutExtensions(ts, [0, 0] + PutU16(|sni|) + sni + after)) == ParseSniExtension(sni)
  {
    var tail := [0, 0] + PutU16(|sni|) + sni + after;
    var b := PutExtensions(ts, tail);
    if ts == [] {
      U16OfPut(|sni|, [0, 0], sni + after);
      assert tail == [0, 0] + PutU16(|sni|) + (sni + after);
      assert b[4..4 + |sni|] == sni;
    } else {
      var t := ts[0];
      var rest := PutExtensions(ts[1..], tail);
      U16OfPut(t.tag, [], PutU16(|t.data|) + (t.data + rest));
      U16OfPut(|t.data|, PutU16(t.tag), t.data + rest);
      assert b == [] + PutU16(t.tag) + (PutU16(|t.data|) + (t.data + rest));
      assert b == PutU16(t.tag) + PutU16(|t.data|) + (t.data + rest);
      assert b[4 + |t.data|..] == rest;
      ScanExtensionsAccepts(ts[1..], sni, after);
    }
  }

  lemma SkipU8Accepts(field: Bytes, rest: Bytes)
    requires |field| < 256
    ensures SkipU8([|field|] + field + rest) == Some(rest)
  {
    var b := [|field|] + field + rest;
    assert b[1 + |field|..] == rest;
  }

  lemma SkipU16Accepts(field: Bytes, rest: Bytes)
    requires |field| < 65536
    ensures SkipU16(PutU16(|field|) + field + rest) == Some(rest)
  {
    var b := PutU16(|field|) + field + rest;
    U16OfPut(|field|, [], field + rest);
    assert b == [] + PutU16(|field|) + (field + rest);
    assert b[2 + |field|..] == rest;
  }

  lemma SniDataAccepts(x: Extensions)
    requires WellTagged(x) && |NameList(x)| < 65536
    ensures ParseSniExtension(SniData(x)) == Ok(x.host)
  {
    var list := NameList(x);
    var b := SniData(x);
    U16OfPut(|list|, [], list + x.afterList);
    assert b == [] + PutU16(|list|) + (list + x.afterList);
    assert b[2..2 + |list|] == list;
    ScanNamesAccepts(x.namesBefore, x.host, x.afterNames);
  }

  lemma TailAccepts(x: Extensions)
    requires BlockFits(x)
    ensures ParseAfterFields(Tail(x)) == Ok(x.host)
  {
    var block := Block(x);
    var b := Tail(x);
    U16OfPut(|block|, [], block + x.afterBlock);
    assert b == [] + PutU16(|block|) + (block + x.afterBlock);
    assert b[2..2 + |block|] == block;
    ScanExtensionsAccepts(x.before, SniData(x), x.afterSni);
    SniDataAccepts(x);
  }

  lemma FieldsAccept(sid: Bytes, suites: Bytes, compression: Bytes, tail: Bytes)
    requires |sid| < 256 && |suites| < 65536 && |compression| < 256
    ensures ParseFields(Fields(sid, suites, compression, tail)) == ParseAfterFields(tail)
  {
    hide SkipU8, SkipU16;
    var fromCompression := [|compression|] + compression + tail;
    var fromSuites := PutU16(|suites|) + suites + fromCompression;
    SkipU8Accepts(sid, fromSuites);
    SkipU16Accepts(suites, fromCompression);
    SkipU8Accepts(compression, tail);
  }

  lemma U24OfPut(n: nat, pre: Bytes, rest: Bytes)
    requires n < 16777216
    ensures U24(pre + PutU24(n) + rest, |pre|) == n
  {
    var b := pre + PutU24(n) + rest;
    assert b[|pre|] == n / 65536 && b[|pre| + 1] == n / 256 % 256 && b[|pre| + 2] == n % 256;
    assert n / 256 / 256 == n / 65536;
  }

  /** Every structured ClientHello parses to its host name. */
  lemma ParserAcceptsGrammar(h: Hello)
    requires Fits(h)
    ensures Parse(Serialize(h)) == Ok(h.ext.host)
  {
    hide ParseFields, Tail, Fields, BlockFits;
    var hs := Handshake(h);
    var b := Serialize(h);
    U24OfPut(|hs|, [1], hs + h.afterHandshake);
    assert b == [1] + PutU24(|hs|) + (hs + h.afterHandshake);
    assert b[4..4 + |hs|] == hs;
    assert hs[34..] == Fields(h.sessionId, h.suites, h.compression, Tail(h.ext));
    FieldsAccept(h.sessionId, h.suites, h.compression, Tail(h.ext));
    TailAccepts(h.ext);
  }

  // ----- the grammar covers what the parser accepts -----

  lemma PutOfU16(b: Bytes, i: nat)
    requires i + 1 < |b|
    ensures U16(b, i) < 65536 && PutU16(U16(b, i)) == b[i..i + 2]
  {
  }

  lemma TagsCons(t: Tagged, ts: seq<Tagged>, bound: nat)
    requires TagsBelow(ts, bound) && 0 < t.tag < bound && |t.data| < 65536
    ensures TagsBelow([t] + ts, bound)
  {
  }

  lemma {:induction false} ScanNamesStructure(b: Bytes) returns (ts: seq<Tagged>, after: Bytes)
    requires ScanNames(b).Ok?
    ensures TagsBelow(ts, 256)
    ensures var host := ScanNames(b).value;
            |host| < 65536 && b == PutNames(ts, [0] + PutU16(|host|) + host + after)
    decreases |b|
  {
    var l := U16(b, 1);
    var host := ScanNames(b).value;
    PutOfU16(b, 1);
    if b[0] == 0 {
      ts, after := [], b[3 + l..];
      assert b == [0] + b[1..3] + b[3..3 + l] + b[3 + l..];
    } else {
      var more;
      more, after := ScanNamesStructure(b[3 + l..]);
      var t := Tagged(b[0], b[3..3 + l]);
      TagsCons(t, more, 256);
      ts := [t] + more;
      assert ts[1..] == more;
      assert b == [b[0]] + b[1..3] + b[3..3 + l] + b[3 + l..];
    }
  }

  lemma ZeroTag(b: Bytes)
    requires |b| >= 2 && U16(b, 0) == 0
    ensures b[0..2] == [0, 0]
  {
  }

  lemma {:induction false} ScanExtensionsStructure(b: Bytes) returns (ts: seq<Tagged>, sni: Bytes, after: Bytes)
    requires ScanExtensions(b).Ok?
    ensures TagsBelow(ts, 65536) && |sni| < 65536
    ensures ParseSniExtension(sni) == ScanExtensions(b)
    ensures b == PutExtensions(ts, [0, 0] + PutU16(|sni|) + sni + after)
    decreases |b|
  {
    hide U16, PutU16, ParseSniExtension;
    var l := U16(b, 2);
    PutOfU16(b, 2);
    PutOfU16(b, 0);
    assert b == b[0..2] + b[2..4] + b[4..4 + l] + b[4 + l..];
    if U16(b, 0) == 0 {
      ts, sni, after := [], b[4..4 + l], b[4 + l..];
      ZeroTag(b);
    } else {
      var more;
      more, sni, after := ScanExtensionsStructure(b[4 + l..]);
      var t := Tagged(U16(b, 0), b[4..4 + l]);
      TagsCons(t, more, 65536);
      ts := [t] + more;
      assert ts[1..] == more;
    }
  }

  lemma SkipU8Structure(b: Bytes) returns (field: Bytes)
    requires SkipU8(b).Some?
    ensures |field| < 256 && b == [|field|] + field + SkipU8(b).value
  {
    field := b[1..1 + b[0]];
  }

  lemma SkipU16Structure(b: Bytes) returns (field: Bytes)
    requires SkipU16(b).Some?
    ensures |field| < 65536 && b == PutU16(|field|) + field + SkipU16(b).value
  {
    PutOfU16(b, 0);
    field := b[2..2 + U16(b, 0)];
    assert b == b[0..2] + field + b[2 + U16(b, 0)..];
  }

  lemma Digits(x: nat, y: nat, z: nat)
    requires y < 256 && z < 256
    ensures (x * 65536 + y * 256 + z) / 65536 == x
    ensures (x * 65536 + y * 256 + z) / 256 == x * 256 + y
    ensures (x * 65536 + y * 256 + z) % 256 == z
    ensures (x * 256 + y) % 256 == y
  {
  }

  lemma PutOfU24(b: Bytes, i: nat)
    requires i + 2 < |b|
    ensures U24(b, i) < 16777216 && PutU24(U24(b, i)) == b[i..i + 3]
  {
    Digits(b[i], b[i + 1], b[i + 2]);
  }

  /** The structure from the extension block length on. */
  lemma TailStructure(b: Bytes) returns (x: Extensions)
    requires ParseAfterFields(b).Ok?
    ensures BlockFits(x) && Tail(x) == b && ParseAfterFields(b) == Ok(x.host)
  {
    PutOfU16(b, 0);
    var block := b[2..2 + U16(b, 0)];
    var afterBlock := b[2 + U16(b, 0)..];
    assert b == b[0..2] + block + afterBlock;
    var before, sni, afterSni := ScanExtensionsStructure(block);
    hide U16, PutU16, ScanExtensions, ScanNames, ParseSniExtension;
    x := SniStructure(sni, before, afterSni, afterBlock);
    assert Block(x) == block;
  }

  /** The structure of the server name extension, within a block around it. */
  lemma SniStructure(sni: Bytes, before: seq<Tagged>, afterSni: Bytes, afterBlock: Bytes) returns (x: Extensions)
    requires ParseSniExtension(sni).Ok? && |sni| < 65536 && TagsBelow(before, 65536)
    ensures WellTagged(x) && |NameList(x)| < 65536 && SniData(x) == sni && ParseSniExtension(sni) == Ok(x.host)
    ensures x.before == before && x.afterSni == afterSni && x.afterBlock == afterBlock
  {
    PutOfU16(sni, 0);
    var names := sni[2..2 + U16(sni, 0)];
    var afterList := sni[2 + U16(sni, 0)..];
    assert sni == sni[0..2] + names + afterList;
    var namesBefore, afterNames := ScanNamesStructure(names);
    hide ScanNames, PutNames, PutU16;
    x := Extensions(before, namesBefore, ScanNames(names).value, afterNames, afterList, afterSni, afterBlock);
  }

  /** The fields the parser skipped, and what it found behind them. */
  lemma FieldsStructure(b: Bytes) returns (sid: Bytes, suites: Bytes, compression: Bytes, tail: Bytes)
    requires ParseFields(b).Ok?
    ensures |sid| < 256 && |suites| < 65536 && |compression| < 256
    ensures b == Fields(sid, suites, compression, tail)
    ensures ParseFields(b) == ParseAfterFields(tail)
  {
    hide SkipU8, SkipU16, ParseAfterFields;
    sid := SkipU8Structure(b);
    var b1 := SkipU8(b).value;
    suites := SkipU16Structure(b1);
    var b2 := SkipU16(b1).value;
    compression := SkipU8Structure(b2);
    tail := SkipU8(b2).value;
  }

  /** Whatever the parser accepts is a ClientHello of the grammar, with that host name. */
  lemma GrammarCoversParser(b: Bytes) returns (h: Hello)
    requires Parse(b).Ok?
    ensures Fits(h) && Serialize(h) == b && Parse(b) == Ok(h.ext.host)
  {
    hide ParseFields, ParseAfterFields, PutU24, Tail, BlockFits, Fields;
    var hl := U24(b, 1);
    PutOfU24(b, 1);
    var hs := b[4..4 + hl];
    assert b == [1] + b[1..4] + hs + b[4 + hl..];
    assert hs == hs[..34] + hs[34..];
    var sid, suites, compression, tail := FieldsStructure(hs[34..]);
    var x := TailStructure(tail);
    h := Hello(hs[..34], sid, suites, compression, x, b[4 + hl..]);
    assert Handshake(h) == hs;
  }

  /** The parser succeeds on exactly the byte strings of the grammar. */
  lemma ParserIffGrammar(b: Bytes, host: Bytes)
    ensures Parse(b) == Ok(host) <==> exists h :: Fits(h) && Serialize(h) == b && h.ext.host == host
  {
    if Parse(b) == Ok(host) {
      var h := GrammarCoversParser(b);
      assert Fits(h) && Serialize(h) == b && h.ext.host == host;
    }
    if h :| Fits(h) && Serialize(h) == b && h.ext.host == host {
      ParserAcceptsGrammar(h);
    }
  }

  // ----- reading one record off the stream -----

  function Limit(maxBytes: int): int {
    if maxBytes <= 0 then 16384 else maxBytes
  }

  /** The whole record: content type, version, length, body. */
  function Record(minor: Byte, body: Bytes): Bytes
    requires |body| < 65536
  {
    [0x16, 3, minor] + PutU16(|body|) + body
  }

  datatype Peek = Peek(name: Name, raw: Bytes)

  /** What peeking returns and how many bytes it consumes, for a connection that will deliver `data`. */
  function PeekOf(data: Bytes, maxBytes: int, lower: Lowering): (Peek, nat) {
    if |data| < 5 then (Peek(Err(Incomplete), []), |data|)
    else
      var hdr := data[..5];
      if hdr[0] != 0x16 || hdr[1] != 3 then (Peek(Err(NotTls), hdr), 5)
      else
        var length := U16(hdr, 3);
        if length == 0 || 5 + length > Limit(maxBytes) then (Peek(Err(TooLarge), hdr), 5)
        else if |data| < 5 + length then (Peek(Err(Incomplete), hdr), |data|)
        else
          var raw := data[..5 + length];
          (Peek(Lowered(Parse(data[5..5 + length]), lower), raw), 5 + length)
  }

  function Lowered(n: Name, lower: Lowering): Name {
    match n
    case Ok(host) => Ok(lower(host))
    case Err(e) => Err(e)
  }

  method PeekSni(r: Reader, maxBytes: int, lower: Lowering) returns (p: Peek)
    requires r.Valid()
    modifies r
    ensures r.Valid()
    ensures var (peek, used) := PeekOf(old(r.Rest()), maxBytes, lower);
            p == peek && r.pos == old(r.pos) + used
  {
    var limit := maxBytes;
    if limit <= 0 { limit := 16 * 1024; }
    ghost var data := r.Rest();
    var hdr, ok := r.ReadFull(5);
    if !ok { return Peek(Err(Incomplete), []); }
    if hdr[0] != 0x16 || hdr[1] != 3 { return Peek(Err(NotTls), hdr); }
    var length := U16(hdr, 3);
    if length <= 0 || 5 + length > limit { return Peek(Err(TooLarge), hdr); }
    var body, ok' := r.ReadFull(length);
    if !ok' { return Peek(Err(Incomplete), hdr); }
    assert body == data[5..5 + length];
    assert hdr + body == data[..5 + length];
    var name := ParseClientHello(body);
    return Peek(Lowered(name, lower), hdr + body);
  }

  lemma PeekOfRecord(body: Bytes, minor: Byte, rest: Bytes, maxBytes: int, lower: Lowering)
    requires 0 < |body| < 65536 && 5 + |body| <= Limit(maxBytes)
    ensures var record := Record(minor, body);
            PeekOf(record + rest, maxBytes, lower) == (Peek(Lowered(Parse(body), lower), record), |record|)
  {
    hide Parse, Lowered;
    var record := Record(minor, body);
    var data := record + rest;
    U16OfPut(|body|, [0x16, 3, minor], []);
    assert data[..5] == [0x16, 3, minor] + PutU16(|body|) + [];
    assert data[5..5 + |body|] == body;
    assert data[..5 + |body|] == record;
  }

  /**
   * A record holding a structured ClientHello, within the limit and followed by anything,
   * yields the lower-cased host name and exactly the record's bytes; what follows stays unread.
   */
  lemma PeekReadsRecord(h: Hello, minor: Byte, rest: Bytes, maxBytes: int, lower: Lowering)
    requires Fits(h) && |Serialize(h)| < 65536
    requires 5 + |Serialize(h)| <= Limit(maxBytes)
    ensures var record := Record(minor, Serialize(h));
            PeekOf(record + rest, maxBytes, lower) == (Peek(Ok(lower(h.ext.host)), record), |record|)
  {
    assert |Serialize(h)| > 0;
    hide Parse, PeekOf, Record, Serialize, Fits;
    PeekOfRecord(Serialize(h), minor, rest, maxBytes, lower);
    ParserAcceptsGrammar(h);
  }

  /** The bytes a successful peek consumed are one whole record. */
  lemma PeekedRecord(data: Bytes, maxBytes: int, lower: Lowering) returns (minor: Byte, body: Bytes)
    requires PeekOf(data, maxBytes, lower).0.name.Ok?
    ensures var (peek, used) := PeekOf(data, maxBytes, lower);
            && |body| < 65536 && 5 + |body| <= Limit(maxBytes)
            && used == 5 + |body| <= |data|
            && data[..used] == Record(minor, body) == peek.raw
            && Parse(body).Ok? && peek.name == Ok(lower(Parse(body).value))
  {
    hide Parse;
    var length := U16(data[..5], 3);
    PutOfU16(data[..5], 3);
    body, minor := data[5..5 + length], data[2];
    assert data[..5] == [0x16, 3, minor] + data[..5][3..5];
    assert data[..5 + length] == data[..5] + body;
  }

  /** Success means the stream began with such a record, and only that record was read. */
  lemma PeekSuccessIsRecord(data: Bytes, maxBytes: int, lower: Lowering) returns (h: Hello, minor: Byte)
    requires PeekOf(data, maxBytes, lower).0.name.Ok?
    ensures Fits(h) && |Serialize(h)| < 65536
    ensures var (peek, used) := PeekOf(data, maxBytes, lower);
            && used <= |data| && 5 + |Serialize(h)| <= Limit(maxBytes)
            && data[..used] == Record(minor, Serialize(h)) == peek.raw
            && peek.name == Ok(lower(h.ext.host))
  {
    hide PeekOf, Parse, Serialize, Fits, Record;
    var body;
    minor, body := PeekedRecord(data, maxBytes, lower);
    h := GrammarCoversParser(body);
  }

  /** Peeking never reads past the first record, and never more than there is. */
  lemma PeekInBounds(data: Bytes, maxBytes: int, lower: Lowering)
    ensures var (peek, used) := PeekOf(data, maxBytes, lower);
            && used <= |data| && peek.raw <= data
            && (used <= 5 || used <= Limit(maxBytes))
  {
  }
}
