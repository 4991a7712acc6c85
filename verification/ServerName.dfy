/** The server name of a TLS ClientHello (server/gateway/sniff.go; section 4.1.2 of RFC 8446 and section 3
    of RFC 6066). */
module ServerName {
  import opened Options

  type Byte = n: nat | n < 256
  type Bytes = seq<Byte>

  datatype Error =
    | NotClientHello | TruncatedHello | TruncatedVector | TruncatedExtensions
    | NoServerName | InvalidExtension | InvalidHostName

  function U16(hi: Byte, lo: Byte): nat {
    hi * 256 + lo
  }

  // ---------- the parser ----------

  /** The position after a vector that starts at `position` and has a length of `width` bytes. */
  function SkipVector(data: Bytes, position: nat, width: nat): Result<nat, Error>
    requires width == 1 || width == 2
  {
    if position + width > |data| then Err(TruncatedVector)
    else
      var length := if width == 2 then U16(data[position], data[position + 1]) else data[position];
      if position + width + length > |data| then Err(TruncatedVector) else Ok(position + width + length)
  }

  function DecodeServerName(data: Bytes): Result<Bytes, Error> {
    if |data| < 5 then Err(InvalidExtension)
    else
      var nameLength := U16(data[3], data[4]);
      if data[2] != 0 || 5 + nameLength > |data| then Err(InvalidHostName) else Ok(data[5..5 + nameLength])
  }

  function Find(extensions: Bytes): Result<Bytes, Error> {
    if |extensions| < 4 then Err(NoServerName)
    else
      var length := U16(extensions[2], extensions[3]);
      if 4 + length > |extensions| then Err(NoServerName)
      else if U16(extensions[0], extensions[1]) == 0 then DecodeServerName(extensions[4..4 + length])
      else Find(extensions[4 + length..])
  }

  method FindServerName(extensions: Bytes) returns (r: Result<Bytes, Error>)
    ensures r == Find(extensions)
  {
    var rest := extensions;
    while |rest| >= 4
      invariant Find(rest) == Find(extensions)
      decreases |rest|
    {
      var kind, length := U16(rest[0], rest[1]), U16(rest[2], rest[3]);
      if 4 + length > |rest| {
        break;
      }
      if kind == 0 {
        return DecodeServerName(rest[4..4 + length]);
      }
      rest := rest[4 + length..];
    }
    return Err(NoServerName);
  }

  /** The extensions block that starts at `position`. */
  function Block(body: Bytes, position: nat): Result<Bytes, Error> {
    if position + 2 > |body| then Err(TruncatedExtensions)
    else
      var length := U16(body[position], body[position + 1]);
      if position + 2 + length > |body| then Err(TruncatedExtensions) else Ok(body[position + 2..position + 2 + length])
  }

  function Extensions(body: Bytes, position: nat): Result<Bytes, Error> {
    var block := Block(body, position);
    if block.Err? then Err(block.error) else Find(block.value)
  }

  function Parse(handshake: Bytes): Result<Bytes, Error> {
    if |handshake| < 4 || handshake[0] != 1 then Err(NotClientHello)
    else
      var body := handshake[4..];
      if |body| < 34 then Err(TruncatedHello)
      else
        var session := SkipVector(body, 34, 1);
        if session.Err? then Err(session.error)
        else
          var suites := SkipVector(body, session.value, 2);
          if suites.Err? then Err(suites.error)
          else
            var compression := SkipVector(body, suites.value, 1);
            if compression.Err? then Err(TruncatedExtensions) else Extensions(body, compression.value)
  }

  /** Every index is in bounds and the loop ends on every byte string: that is what verifying this method means. */
  method ParseServerName(handshake: Bytes) returns (r: Result<Bytes, Error>)
    ensures r == Parse(handshake)
  {
    if |handshake| < 4 || handshake[0] != 0x01 {
      return Err(NotClientHello);
    }
    var body := handshake[4..];
    if |body| < 34 {
      return Err(TruncatedHello);
    }
    var position := 34;
    var skipped := SkipVector(body, position, 1);
    if skipped.Err? {
      return Err(skipped.error);
    }
    position := skipped.value;
    skipped := SkipVector(body, position, 2);
    if skipped.Err? {
      return Err(skipped.error);
    }
    position := skipped.value;
    skipped := SkipVector(body, position, 1);
    if skipped.Err? || skipped.value + 2 > |body| {
      return Err(TruncatedExtensions);
    }
    position := skipped.value;
    var extensionsLength := U16(body[position], body[position + 1]);
    position := position + 2;
    var end := position + extensionsLength;
    if end > |body| {
      return Err(TruncatedExtensions);
    }
    r := FindServerName(body[position..end]);
  }

  // ---------- the message format ----------

  datatype Extension = Extension(kind: nat, data: Bytes)

  /** The data of a server_name extension whose first entry is a host name. */
  datatype Names = Names(listLength: Bytes, host: Bytes, more: Bytes)

  /** The fields of a ClientHello. The parser does not look at the handshake length, at the contents of the
      fields before the extensions, at the length of the server name list, or at anything that follows the
      first host name; those are free here. */
  datatype Hello = Hello(
    handshakeLength: Bytes, versionAndRandom: Bytes, session: Bytes, suites: Bytes, compression: Bytes,
    before: seq<Extension>, names: Names, after: Bytes, trailing: Bytes)

  function Int16(n: nat): (r: Bytes)
    requires n < 65536
    ensures |r| == 2 && U16(r[0], r[1]) == n
  {
    [n / 256, n % 256]
  }

  function Vector8(data: Bytes): Bytes
    requires |data| < 256
  {
    [|data|] + data
  }

  function Vector16(data: Bytes): Bytes
    requires |data| < 65536
  {
    Int16(|data|) + data
  }

  predicate FitsExtension(e: Extension) {
    e.kind < 65536 && |e.data| < 65536
  }

  function PrintExtension(e: Extension): Bytes
    requires FitsExtension(e)
  {
    Int16(e.kind) + Vector16(e.data)
  }

  function PrintAll(extensions: seq<Extension>): Bytes
    requires forall e <- extensions :: FitsExtension(e)
  {
    if extensions == [] then [] else PrintExtension(extensions[0]) + PrintAll(extensions[1..])
  }

  predicate FitsNames(n: Names) {
    |n.listLength| == 2 && |n.host| < 65536 && 5 + |n.host| + |n.more| < 65536
  }

  function PrintNames(n: Names): (r: Bytes)
    requires FitsNames(n)
    ensures |r| == 5 + |n.host| + |n.more|
  {
    n.listLength + [0] + Vector16(n.host) + n.more
  }

  predicate FitsBlock(before: seq<Extension>, names: Names) {
    FitsNames(names) && forall e <- before :: FitsExtension(e) && e.kind != 0
  }

  function PrintBlock(before: seq<Extension>, names: Names, after: Bytes): Bytes
    requires FitsBlock(before, names)
  {
    PrintAll(before) + (PrintExtension(Extension(0, PrintNames(names))) + after)
  }

  /** The fields fit the lengths that announce them, and the first server_name extension starts with a host name. */
  predicate WellFormed(f: Hello) {
    && |f.handshakeLength| == 3 && |f.versionAndRandom| == 34
    && |f.session| < 256 && |f.suites| < 65536 && |f.compression| < 256
    && FitsBlock(f.before, f.names) && |PrintBlock(f.before, f.names, f.after)| < 65536
  }

  /** The fields in front of the extensions, then the rest of the body. */
  function PrintFront(first: Bytes, session: Bytes, suites: Bytes, compression: Bytes, rest: Bytes): Bytes
    requires |session| < 256 && |suites| < 65536 && |compression| < 256
  {
    first + (Vector8(session) + (Vector16(suites) + (Vector8(compression) + rest)))
  }

  function PrintBody(f: Hello): Bytes
    requires WellFormed(f)
  {
    PrintFront(f.versionAndRandom, f.session, f.suites, f.compression,
               Vector16(PrintBlock(f.before, f.names, f.after)) + f.trailing)
  }

  function Print(f: Hello): Bytes
    requires WellFormed(f)
  {
    [1] + f.handshakeLength + PrintBody(f)
  }

  // ---------- parsing inverts printing ----------

  lemma DecodePrinted(n: Names)
    requires FitsNames(n)
    ensures DecodeServerName(PrintNames(n)) == Ok(n.host)
  {
    var p := PrintNames(n);
    assert p[3..5] == Int16(|n.host|);
    assert p[5..5 + |n.host|] == n.host;
  }

  /** Reading one printed extension off the front. */
  lemma FindPrinted(e: Extension, rest: Bytes)
    requires FitsExtension(e)
    ensures Find(PrintExtension(e) + rest) == if e.kind == 0 then DecodeServerName(e.data) else Find(rest)
  {
    var p := PrintExtension(e) + rest;
    assert p[0..2] == Int16(e.kind) && p[2..4] == Int16(|e.data|);
    assert p[4..4 + |e.data|] == e.data;
    assert p[4 + |e.data|..] == rest;
  }

  lemma {:induction false} FindSkips(before: seq<Extension>, rest: Bytes)
    requires forall e <- before :: FitsExtension(e) && e.kind != 0
    ensures Find(PrintAll(before) + rest) == Find(rest)
  {
    if before == [] {
      assert PrintAll(before) + rest == rest;
    } else {
      assert PrintAll(before) + rest == PrintExtension(before[0]) + (PrintAll(before[1..]) + rest);
      FindPrinted(before[0], PrintAll(before[1..]) + rest);
      FindSkips(before[1..], rest);
    }
  }

  lemma FindInBlock(before: seq<Extension>, names: Names, after: Bytes)
    requires FitsBlock(before, names)
    ensures Find(PrintBlock(before, names, after)) == Ok(names.host)
  {
    var e := Extension(0, PrintNames(names));
    FindSkips(before, PrintExtension(e) + after);
    FindPrinted(e, after);
    DecodePrinted(names);
  }

  /** A part of a concatenation, found again by its position. */
  lemma Placed(head: Bytes, part: Bytes, rest: Bytes)
    ensures (head + (part + rest))[|head|..|head| + |part|] == part
    ensures head + (part + rest) == (head + part) + rest
  {
  }

  lemma PlacedVector16(head: Bytes, data: Bytes, rest: Bytes)
    requires |data| < 65536
    ensures |Vector16(data)| == 2 + |data|
    ensures var all := head + (Vector16(data) + rest);
      && U16(all[|head|], all[|head| + 1]) == |data|
      && all[|head| + 2..|head| + 2 + |data|] == data
  {
    var all := head + (Vector16(data) + rest);
    var count := Int16(|data|);
    assert all == head + (count + (data + rest));
    assert all[|head|] == count[0] && all[|head| + 1] == count[1];
    assert all == (head + count) + (data + rest);
    Placed(head + count, data, rest);
  }

  lemma SkipPrinted8(head: Bytes, data: Bytes, rest: Bytes)
    requires |data| < 256
    ensures SkipVector(head + (Vector8(data) + rest), |head|, 1) == Ok(|head + Vector8(data)|)
    ensures head + (Vector8(data) + rest) == (head + Vector8(data)) + rest
  {
    Placed(head, Vector8(data), rest);
  }

  lemma SkipPrinted16(head: Bytes, data: Bytes, rest: Bytes)
    requires |data| < 65536
    ensures SkipVector(head + (Vector16(data) + rest), |head|, 2) == Ok(|head + Vector16(data)|)
    ensures head + (Vector16(data) + rest) == (head + Vector16(data)) + rest
  {
    PlacedVector16(head, data, rest);
    Placed(head, Vector16(data), rest);
  }

  lemma BlockPrinted(head: Bytes, block: Bytes, trailing: Bytes)
    requires |block| < 65536
    ensures Block(head + (Vector16(block) + trailing), |head|) == Ok(block)
  {
    PlacedVector16(head, block, trailing);
  }

  /** The body of the hello, split where the extensions start. */
  lemma SkipsPrinted(first: Bytes, session: Bytes, suites: Bytes, compression: Bytes, rest: Bytes)
    requires |first| == 34 && |session| < 256 && |suites| < 65536 && |compression| < 256
    ensures var body := PrintFront(first, session, suites, compression, rest);
      var head := ((first + Vector8(session)) + Vector16(suites)) + Vector8(compression);
      body == head + rest && Parse([1, 0, 0, 0] + body) == Extensions(head + rest, |head|)
  {
    var tail3 := Vector16(suites) + (Vector8(compression) + rest);
    SkipPrinted8(first, session, tail3);
    var h2 := first + Vector8(session);
    SkipPrinted16(h2, suites, Vector8(compression) + rest);
    var h3 := h2 + Vector16(suites);
    SkipPrinted8(h3, compression, rest);
    var body := first + (Vector8(session) + tail3);
    assert ([1, 0, 0, 0] + body)[4..] == body;
  }

  /** The three bytes of the handshake length are not read. */
  lemma ParseBody(length: Bytes, body: Bytes)
    requires |length| == 3
    ensures Parse([1] + length + body) == Parse([1, 0, 0, 0] + body)
  {
    assert ([1] + length + body)[4..] == body == ([1, 0, 0, 0] + body)[4..];
  }

  /** For every ClientHello built from its fields the parser returns the host name of the first server_name
      extension, whatever surrounds it. */
  lemma ParsePrinted(f: Hello)
    requires WellFormed(f)
    ensures Parse(Print(f)) == Ok(f.names.host)
  {
    var block := PrintBlock(f.before, f.names, f.after);
    ParseBody(f.handshakeLength, PrintBody(f));
    SkipsPrinted(f.versionAndRandom, f.session, f.suites, f.compression, Vector16(block) + f.trailing);
    BlockPrinted(((f.versionAndRandom + Vector8(f.session)) + Vector16(f.suites)) + Vector8(f.compression),
                 block, f.trailing);
    FindInBlock(f.before, f.names, f.after);
  }

  // ---------- printing inverts parsing ----------

  lemma Int16Reads(hi: Byte, lo: Byte)
    ensures Int16(U16(hi, lo)) == [hi, lo]
  {
  }

  lemma Vector16Reads(data: Bytes, start: nat, end: nat)
    requires start + 2 <= end <= |data| && end == start + 2 + U16(data[start], data[start + 1])
    ensures data[start..end] == Vector16(data[start + 2..end])
  {
    Int16Reads(data[start], data[start + 1]);
    assert data[start..end] == [data[start], data[start + 1]] + data[start + 2..end];
  }

  lemma Vector8Reads(data: Bytes, start: nat, end: nat)
    requires start + 1 <= end <= |data| && end == start + 1 + data[start]
    ensures data[start..end] == Vector8(data[start + 1..end])
  {
    assert data[start..end] == [data[start]] + data[start + 1..end];
  }

  lemma Cut(data: Bytes, start: nat, end: nat)
    requires start <= end <= |data|
    ensures data[start..] == data[start..end] + data[end..]
  {
  }

  /** The first extension of a block that is read. */
  lemma FirstFields(block: Bytes) returns (first: Extension, rest: Bytes)
    requires |block| >= 4 && 4 + U16(block[2], block[3]) <= |block|
    ensures FitsExtension(first) && first == Extension(U16(block[0], block[1]), block[4..4 + U16(block[2], block[3])])
    ensures rest == block[4 + U16(block[2], block[3])..]
    ensures block == PrintExtension(first) + rest
  {
    var end := 4 + U16(block[2], block[3]);
    first, rest := Extension(U16(block[0], block[1]), block[4..end]), block[end..];
    Int16Reads(block[0], block[1]);
    Vector16Reads(block, 2, end);
    assert block == [block[0], block[1]] + block[2..end] + block[end..];
  }

  lemma PrintAllCons(first: Extension, others: seq<Extension>, tail: Bytes)
    requires FitsExtension(first) && forall e <- others :: FitsExtension(e)
    ensures forall e <- [first] + others :: FitsExtension(e)
    ensures PrintAll([first] + others) + tail == PrintExtension(first) + (PrintAll(others) + tail)
  {
    assert ([first] + others)[1..] == others;
    Placed(PrintExtension(first), PrintAll(others), tail);
  }

  /** Reads the extensions up to the first server_name extension. */
  lemma {:induction false} BlockFields(block: Bytes) returns (before: seq<Extension>, names: Bytes, after: Bytes)
    requires Find(block).Ok?
    ensures forall e <- before :: FitsExtension(e) && e.kind != 0
    ensures |names| < 65536 && block == PrintAll(before) + (PrintExtension(Extension(0, names)) + after)
    ensures Find(block) == DecodeServerName(names)
    decreases |block|
  {
    var first, rest := FirstFields(block);
    FindPrinted(first, rest);
    if first.kind == 0 {
      before, names, after := [], first.data, rest;
      assert block == [] + (PrintExtension(first) + rest);
    } else {
      var others;
      others, names, after := BlockFields(rest);
      before := [first] + others;
      PrintAllCons(first, others, PrintExtension(Extension(0, names)) + after);
    }
  }

  lemma NamesFields(data: Bytes) returns (n: Names)
    requires DecodeServerName(data).Ok? && |data| < 65536
    ensures FitsNames(n) && PrintNames(n) == data && DecodeServerName(data) == Ok(n.host)
  {
    var end := 5 + U16(data[3], data[4]);
    n := Names(data[..2], data[5..end], data[end..]);
    Vector16Reads(data, 3, end);
    assert data == data[..2] + [0] + data[3..end] + data[end..];
  }

  /** The body that a successful parse has read. */
  lemma BodyFields(body: Bytes, s: nat, c: nat, x: nat)
    requires |body| >= 34
    requires SkipVector(body, 34, 1) == Ok(s) && SkipVector(body, s, 2) == Ok(c) && SkipVector(body, c, 1) == Ok(x)
    ensures 35 <= s <= c - 2 && c <= x - 1 && x <= |body|
    ensures |body[35..s]| < 256 && |body[s + 2..c]| < 65536 && |body[c + 1..x]| < 256
    ensures body == PrintFront(body[..34], body[35..s], body[s + 2..c], body[c + 1..x], body[x..])
  {
    Vector8Reads(body, 34, s);
    Vector16Reads(body, s, c);
    Vector8Reads(body, c, x);
    Cut(body, 0, 34);
    Cut(body, 34, s);
    Cut(body, s, c);
    Cut(body, c, x);
  }

  lemma ExtensionFields(body: Bytes, x: nat) returns (end: nat)
    requires Block(body, x).Ok?
    ensures x + 2 <= end <= |body|
    ensures Block(body, x) == Ok(body[x + 2..end]) && |body[x + 2..end]| < 65536
    ensures body[x..] == Vector16(body[x + 2..end]) + body[end..]
  {
    end := x + 2 + U16(body[x], body[x + 1]);
    Vector16Reads(body, x, end);
    Cut(body, x, end);
  }

  /** Whatever the parser accepts is a printed ClientHello with the returned host name. */
  lemma ParsedIsPrinted(handshake: Bytes) returns (f: Hello)
    requires Parse(handshake).Ok?
    ensures WellFormed(f) && Print(f) == handshake && Parse(handshake) == Ok(f.names.host)
  {
    hide PrintFront, PrintNames, PrintAll, Find, DecodeServerName;
    var body := handshake[4..];
    var s := SkipVector(body, 34, 1).value;
    var c := SkipVector(body, s, 2).value;
    var x := SkipVector(body, c, 1).value;
    BodyFields(body, s, c, x);
    var end := ExtensionFields(body, x);
    var before, data, after := BlockFields(body[x + 2..end]);
    var names := NamesFields(data);
    f := Hello(handshake[1..4], body[..34], body[35..s], body[s + 2..c], body[c + 1..x],
               before, names, after, body[end..]);
    assert PrintBlock(before, names, after) == body[x + 2..end];
    assert PrintBody(f) == body;
    assert handshake == [1] + handshake[1..4] + handshake[4..];
  }

  /** The parser returns a name exactly for the byte strings that print a ClientHello with that name. */
  lemma ParseIsInverseOfPrint(handshake: Bytes, name: Bytes)
    ensures Parse(handshake) == Ok(name) <==> exists f :: WellFormed(f) && Print(f) == handshake && f.names.host == name
  {
    if Parse(handshake) == Ok(name) {
      var f := ParsedIsPrinted(handshake);
    }
    forall f | WellFormed(f) && Print(f) == handshake && f.names.host == name
      ensures Parse(handshake) == Ok(name)
    {
      ParsePrinted(f);
    }
  }

  /** One message byte by byte: the type, a session id of one byte, one suite, one compression method, one other
      extension of two bytes, and then a host name of three. */
  lemma HelloByBytes(h: Bytes)
    requires |h| == 66 && h[0] == 1
    requires h[38] == 1 && h[40] == 0 && h[41] == 2 && h[44] == 1 && h[46] == 0 && h[47] == 18
    requires h[48] == 0 && h[49] == 11 && h[50] == 0 && h[51] == 2
    requires h[54] == 0 && h[55] == 0 && h[56] == 0 && h[57] == 8 && h[60] == 0 && h[61] == 0 && h[62] == 3
    ensures Parse(h) == Ok(h[63..66])
  {
    hide Find;
    var body := h[4..];
    var block := body[44..62];
    assert SkipVector(body, 34, 1) == Ok(36) && SkipVector(body, 36, 2) == Ok(40) && SkipVector(body, 40, 1) == Ok(42);
    assert Block(body, 42) == Ok(block);
    BlockByBytes(block);
    assert block == h[48..66] && h[48..66][15..18] == h[63..66];
  }

  lemma BlockByBytes(block: Bytes)
    requires |block| == 18 && block[0] == 0 && block[1] == 11 && block[2] == 0 && block[3] == 2
    requires block[6] == 0 && block[7] == 0 && block[8] == 0 && block[9] == 8
    requires block[12] == 0 && block[13] == 0 && block[14] == 3
    ensures Find(block) == Ok(block[15..18])
  {
    var rest := block[6..];
    assert Find(block) == Find(rest);
    assert Find(rest) == DecodeServerName(rest[4..12]);
    assert rest[4..12] == block[10..18] && block[10..18][5..8] == block[15..18];
  }

  // ---------- the sniffed connection ----------

  const BUFFER_SIZE := 65536

  datatype SniffError = Unreadable | InvalidLength | NoName(error: Error)

  /** A buffered reader over the bytes that the peer sends before it stops. */
  class Reader {
    var unread: Bytes

    constructor (stream: Bytes)
      ensures unread == stream
    {
      unread := stream;
    }

    /** Fails when the stream ends first or when the buffer cannot hold that many bytes. */
    method Peek(count: nat) returns (r: Option<Bytes>)
      ensures r == if count <= |unread| && count <= BUFFER_SIZE then Some(unread[..count]) else None
    {
      if count <= |unread| && count <= BUFFER_SIZE {
        return Some(unread[..count]);
      }
      return None;
    }

    method Discard(count: nat)
      requires count <= |unread|
      modifies this
      ensures old(unread) == old(unread)[..count] + unread
    {
      unread := unread[count..];
    }
  }

  /** Without one dot at the end and in lower case; `lower` is what the library does with the bytes of a string. */
  function Normalized(name: Bytes, lower: Bytes -> Bytes): Bytes {
    lower(if name != [] && name[|name| - 1] == 46 then name[..|name| - 1] else name)
  }

  /** A name is lower-cased, and the same with a dot behind it; only one dot is dropped. */
  lemma OneDotIsDropped(name: Bytes, lower: Bytes -> Bytes)
    requires name == [] || name[|name| - 1] != 46
    ensures Normalized(name, lower) == lower(name)
    ensures Normalized(name + [46], lower) == lower(name)
    ensures Normalized(name + [46, 46], lower) == lower(name + [46])
  {
    assert (name + [46])[..|name|] == name;
    assert (name + [46, 46])[..|name| + 1] == name + [46];
  }

  /** What is learnt from a stream. */
  function Sniffed(stream: Bytes, lower: Bytes -> Bytes): Result<Bytes, SniffError> {
    if |stream| < 5 then Err(Unreadable)
    else
      var length := U16(stream[3], stream[4]);
      if length < 5 || length > 65536 then Err(InvalidLength)
      else if 5 + length > |stream| || 5 + length > BUFFER_SIZE then Err(Unreadable)
      else
        var name := Parse(stream[5..5 + length]);
        if name.Ok? then Ok(Normalized(name.value, lower)) else Err(NoName(name.error))
  }

  method SniffTls(reader: Reader, lower: Bytes -> Bytes) returns (prefix: Bytes, name: Result<Bytes, SniffError>)
    modifies reader
    ensures prefix + reader.unread == old(reader.unread)
    ensures name == Sniffed(old(reader.unread), lower)
    ensures var stream := old(reader.unread);
      if |stream| < 5 then prefix == [] && name == Err(Unreadable)
      else
        var high: nat, low: nat := stream[3], stream[4];
        var length: nat := high * 256 + low;
        if length < 5 then prefix == [] && name == Err(InvalidLength)
        else if |stream| < 5 + length || 5 + length > 65536 then prefix == [] && name == Err(Unreadable)
        else
          && prefix == stream[..5 + length]
          && var parsed := Parse(stream[5..5 + length]);
             name == if parsed.Ok? then Ok(Normalized(parsed.value, lower)) else Err(NoName(parsed.error))
  {
    prefix := [];
    var header := reader.Peek(5);
    if header.None? {
      return prefix, Err(Unreadable);
    }
    var recordLength := U16(header.value[3], header.value[4]);
    if recordLength < 5 || recordLength > 65536 {
      return prefix, Err(InvalidLength);
    }
    var record := reader.Peek(5 + recordLength);
    if record.None? {
      return prefix, Err(Unreadable);
    }
    prefix := record.value;
    reader.Discard(|record.value|);
    var parsed := ParseServerName(record.value[5..]);
    assert record.value[5..] == old(reader.unread)[5..5 + recordLength];
    name := if parsed.Ok? then Ok(Normalized(parsed.value, lower)) else Err(NoName(parsed.error));
  }

  /** The connection that is handed on: the captured prefix, then the rest of the stream. */
  class PrefixedConn {
    var prefix: Bytes
    const tail: Reader

    constructor (prefix: Bytes, tail: Reader)
      ensures this.tail == tail && Remaining() == prefix + tail.unread
    {
      this.prefix, this.tail := prefix, tail;
    }

    function Remaining(): Bytes
      reads this, tail
    {
      prefix + tail.unread
    }

    /** One read of at most `limit` bytes; `arrived` bounds what the network has delivered. */
    method Read(limit: nat, arrived: nat) returns (chunk: Bytes)
      modifies this, tail
      ensures chunk + Remaining() == old(Remaining())
      ensures |chunk| <= limit
      ensures chunk == [] ==> limit == 0 || old(Remaining()) == [] || (old(prefix) == [] && arrived == 0)
    {
      if prefix != [] {
        var count := if limit < |prefix| then limit else |prefix|;
        chunk := prefix[..count];
        assert prefix == chunk + prefix[count..];
        prefix := prefix[count..];
      } else {
        var count := if limit < |tail.unread| then limit else |tail.unread|;
        count := if arrived < count then arrived else count;
        chunk := tail.unread[..count];
        tail.Discard(count);
      }
    }
  }

  /** A ClientHello in one record is named exactly when record and header fit the read buffer, so the guard on
      the record length never rejects a long one; what follows the record does not matter. */
  lemma SniffedRecord(f: Hello, contentType: Bytes, after: Bytes, lower: Bytes -> Bytes)
    requires WellFormed(f) && |contentType| == 3 && |Print(f)| < 65536
    ensures var stream := contentType + (Vector16(Print(f)) + after);
      Sniffed(stream, lower)
      == if 5 + |Print(f)| <= BUFFER_SIZE then Ok(Normalized(f.names.host, lower)) else Err(Unreadable)
  {
    PlacedVector16(contentType, Print(f), after);
    ParsePrinted(f);
  }
}
