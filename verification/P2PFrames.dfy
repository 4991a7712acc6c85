/** Sequence-numbered, sealed datagrams between a server and an agent (internal/advanced/p2p_auth.go,
    client/agent/p2p_udp.go, server/tunnel/p2p_udp.go). AES-GCM is an ideal box: it opens with the key, nonce
    and header it was sealed with and with nothing else. */
module P2PFrames {
  import opened Options

  type Byte = n: nat | n < 256
  type Bytes = seq<Byte>

  const TWO64 := 0x1_0000_0000_0000_0000
  type Uint64 = n: nat | n < TWO64

  const HEADER_SIZE := 13
  const TAG_SIZE := 16
  const MAX_DATAGRAM := 65507
  const MAX_PAYLOAD := MAX_DATAGRAM - HEADER_SIZE - TAG_SIZE
  const KEY_SIZE := 32
  const MAGIC: Bytes := [78, 76, 80, 50]
  const SERVER_TO_AGENT: Byte := 1
  const AGENT_TO_SERVER: Byte := 2

  // ---------- big-endian numbers ----------

  function BigEndian(n: nat, width: nat): (r: Bytes)
    ensures |r| == width
  {
    if width == 0 then [] else BigEndian(n / 256, width - 1) + [n % 256]
  }

  function Value(b: Bytes): nat {
    if b == [] then 0 else Value(b[..|b| - 1]) * 256 + b[|b| - 1]
  }

  function Power256(width: nat): (r: nat)
    ensures r > 0
  {
    if width == 0 then 1 else 256 * Power256(width - 1)
  }

  lemma {:induction false} ValueOfBigEndian(n: nat, width: nat)
    requires n < Power256(width)
    ensures Value(BigEndian(n, width)) == n
  {
    if width > 0 {
      ValueOfBigEndian(n / 256, width - 1);
      assert BigEndian(n, width)[..width - 1] == BigEndian(n / 256, width - 1);
    }
  }

  lemma {:induction false} BigEndianOfValue(b: Bytes)
    ensures BigEndian(Value(b), |b|) == b && Value(b) < Power256(|b|)
  {
    if b != [] {
      BigEndianOfValue(b[..|b| - 1]);
      assert b == b[..|b| - 1] + [b[|b| - 1]];
    }
  }

  lemma EightBytes()
    ensures Power256(8) == TWO64
  {
    assert Power256(2) == 0x1_0000;
    assert Power256(4) == 0x1_0000_0000;
    assert Power256(6) == 0x1_0000_0000_0000;
  }

  // ---------- frames ----------

  datatype Box =
    | Sealed(key: Bytes, nonce: Bytes, header: Bytes, payload: Bytes)
    | Junk(length: nat)

  /** A datagram: its first 13 bytes, or all of them when it is shorter, and the rest. */
  datatype Frame = Frame(head: Bytes, body: Box)

  datatype Opened = Opened(payload: Bytes, sequence: Uint64)

  datatype Error = InvalidKey | TooLarge | InvalidFrame | InvalidHeader | Replayed | Unauthentic

  function Size(b: Box): nat {
    match b
    case Sealed(_, _, _, payload) => |payload| + TAG_SIZE
    case Junk(length) => length
  }

  function Nonce(direction: Byte, sequence: Uint64): (r: Bytes)
    ensures |r| == 12
  {
    [direction, 0, 0, 0] + BigEndian(sequence, 8)
  }

  function Header(direction: Byte, sequence: Uint64): (r: Bytes)
    ensures |r| == HEADER_SIZE
  {
    MAGIC + [direction] + BigEndian(sequence, 8)
  }

  function Seal(key: Bytes, direction: Byte, sequence: Uint64, payload: Bytes): Frame {
    var header := Header(direction, sequence);
    Frame(header, Sealed(key, Nonce(direction, sequence), header, payload))
  }

  function EncodeFrame(key: Bytes, direction: Byte, sequence: Uint64, payload: Bytes): Result<Frame, Error> {
    if |key| != KEY_SIZE then Err(InvalidKey)
    else if |payload| > MAX_PAYLOAD then Err(TooLarge)
    else Ok(Seal(key, direction, sequence, payload))
  }

  function Open(key: Bytes, nonce: Bytes, header: Bytes, body: Box): Option<Bytes> {
    if body.Sealed? && body.key == key && body.nonce == nonce && body.header == header then Some(body.payload) else None
  }

  function ReadUint64(b: Bytes): Uint64
    requires |b| == 8
  {
    BigEndianOfValue(b);
    EightBytes();
    Value(b)
  }

  function DecodeFrame(key: Bytes, direction: Byte, last: Uint64, frame: Frame): Result<Opened, Error> {
    if |key| != KEY_SIZE || |frame.head| != HEADER_SIZE || Size(frame.body) < TAG_SIZE then Err(InvalidFrame)
    else if frame.head[..4] != MAGIC || frame.head[4] != direction then Err(InvalidHeader)
    else
      var sequence := ReadUint64(frame.head[5..]);
      if sequence <= last then Err(Replayed)
      else
        var payload := Open(key, Nonce(direction, sequence), frame.head, frame.body);
        if payload.None? then Err(Unauthentic) else Ok(Opened(payload.value, sequence))
  }

  method PutUint64(buffer: array<Byte>, offset: nat, value: Uint64)
    requires offset + 8 <= buffer.Length
    modifies buffer
    ensures buffer[..] == old(buffer[..offset]) + BigEndian(value, 8) + old(buffer[offset + 8..])
  {
    var rest: nat, i := value, 8;
    while i > 0
      invariant 0 <= i <= 8
      invariant BigEndian(value, 8) == BigEndian(rest, i) + buffer[offset + i..offset + 8]
      invariant buffer[..offset] == old(buffer[..offset]) && buffer[offset + 8..] == old(buffer[offset + 8..])
    {
      i := i - 1;
      ghost var written := buffer[offset + i + 1..offset + 8];
      buffer[offset + i] := rest % 256;
      assert buffer[offset + i..offset + 8] == [rest % 256] + written;
      rest := rest / 256;
    }
    assert buffer[..] == buffer[..offset] + buffer[offset..offset + 8] + buffer[offset + 8..];
  }

  method P2pNonce(direction: Byte, sequence: Uint64) returns (nonce: array<Byte>)
    ensures fresh(nonce) && nonce[..] == Nonce(direction, sequence)
  {
    nonce := new Byte[12](_ => 0);
    nonce[0] := direction;
    assert nonce[..4] == [direction, 0, 0, 0];
    PutUint64(nonce, 4, sequence);
  }

  method EncodeP2pFrame(key: Bytes, direction: Byte, sequence: Uint64, payload: Bytes) returns (r: Result<Frame, Error>)
    ensures r == EncodeFrame(key, direction, sequence, payload)
  {
    if |key| != KEY_SIZE {
      return Err(InvalidKey);
    }
    if |payload| > MAX_PAYLOAD {
      return Err(TooLarge);
    }
    var header := new Byte[HEADER_SIZE](_ => 0);
    for i := 0 to 4
      invariant header[..i] == MAGIC[..i]
    {
      header[i] := MAGIC[i];
    }
    header[4] := direction;
    assert header[..5] == MAGIC + [direction];
    PutUint64(header, 5, sequence);
    assert header[..] == Header(direction, sequence);
    var nonce := P2pNonce(direction, sequence);
    return Ok(Frame(header[..], Sealed(key, nonce[..], header[..], payload)));
  }

  // ---------- decoding inverts encoding ----------

  lemma NonceIsInjective(d: Byte, n: Uint64, e: Byte, m: Uint64)
    ensures Nonce(d, n) == Nonce(e, m) <==> d == e && n == m
  {
    if Nonce(d, n) == Nonce(e, m) {
      assert d == Nonce(d, n)[0] && e == Nonce(e, m)[0];
      assert BigEndian(n, 8) == Nonce(d, n)[4..] && BigEndian(m, 8) == Nonce(e, m)[4..];
      EightBytes();
      ValueOfBigEndian(n, 8);
      ValueOfBigEndian(m, 8);
    }
  }

  lemma HeaderReads(d: Byte, n: Uint64)
    ensures Header(d, n)[..4] == MAGIC && Header(d, n)[4] == d && ReadUint64(Header(d, n)[5..]) == n
  {
    assert Header(d, n)[5..] == BigEndian(n, 8);
    EightBytes();
    ValueOfBigEndian(n, 8);
  }

  lemma HeaderIsRead(head: Bytes)
    requires |head| == HEADER_SIZE && head[..4] == MAGIC
    ensures head == Header(head[4], ReadUint64(head[5..]))
  {
    BigEndianOfValue(head[5..]);
    assert head == head[..4] + [head[4]] + head[5..];
  }

  /** A sealed frame is accepted exactly by the same key, in the same direction, above the last sequence. */
  lemma DecodeOfSealed(key: Bytes, d: Byte, n: Uint64, payload: Bytes, key': Bytes, d': Byte, last: Uint64)
    requires |key| == KEY_SIZE
    ensures var r := DecodeFrame(key', d', last, Seal(key, d, n, payload));
      && (r.Ok? <==> key' == key && d' == d && last < n)
      && (r.Ok? ==> r.value == Opened(payload, n))
  {
    HeaderReads(d, n);
  }

  /** Whatever is accepted is the frame that sealing the payload under that sequence gives, byte for byte. */
  lemma DecodedIsSealed(key: Bytes, d: Byte, last: Uint64, frame: Frame)
    requires DecodeFrame(key, d, last, frame).Ok?
    ensures var o := DecodeFrame(key, d, last, frame).value; last < o.sequence && frame == Seal(key, d, o.sequence, o.payload)
  {
    HeaderIsRead(frame.head);
  }

  /** The layout of a frame: "NLP2", the direction, the sequence with its most significant byte first. */
  lemma FrameLayout(key: Bytes, d: Byte, n: Uint64, payload: Bytes, k: nat)
    requires k < 8
    ensures var f := Seal(key, d, n, payload);
      && |f.head| == 13 && f.head[0] == 'N' as int && f.head[1] == 'L' as int && f.head[2] == 'P' as int && f.head[3] == '2' as int
      && f.head[4] == d && f.head[5 + k] == Shifted(n, 7 - k) % 256
      && f.body.nonce[0] == d && f.body.nonce[1] == f.body.nonce[2] == f.body.nonce[3] == 0
      && f.body.nonce[4 + k] == Shifted(n, 7 - k) % 256
  {
    ByteOf(n, 8, k);
  }

  /** A number shifted right by `k` bytes. */
  function Shifted(n: nat, k: nat): nat {
    if k == 0 then n else Shifted(n / 256, k - 1)
  }

  lemma {:induction false} ByteOf(n: nat, width: nat, k: nat)
    requires k < width
    ensures BigEndian(n, width)[k] == Shifted(n, width - 1 - k) % 256
  {
    if k < width - 1 {
      ByteOf(n / 256, width - 1, k);
    }
  }

  /** Encoding is refused exactly for another key size or above 65478 bytes; otherwise the other side, with the same
      key and direction and an earlier last sequence, gets the same payload and sequence. */
  lemma EncodedIsDecoded(key: Bytes, d: Byte, n: Uint64, payload: Bytes, last: Uint64)
    ensures var e := EncodeFrame(key, d, n, payload);
      && (e.Err? <==> |key| != 32 || |payload| > 65478)
      && (e.Ok? && last < n ==> DecodeFrame(key, d, last, e.value) == Ok(Opened(payload, n)))
  {
    if |key| == KEY_SIZE {
      DecodeOfSealed(key, d, n, payload, key, d, last);
    }
  }

  // ---------- the two endpoints ----------

  /** The server's end of a direct session. */
  class DirectSession {
    const key: Bytes
    var sendSeq: Uint64
    var recvSeq: Uint64

    constructor (key: Bytes)
      ensures this.key == key && sendSeq == 0 && recvSeq == 0
    {
      this.key, sendSeq, recvSeq := key, 0, 0;
    }

    /** The sequence is used up even when the payload is too large. */
    method Send(data: Bytes) returns (frame: Result<Frame, Error>)
      modifies this`sendSeq
      ensures sendSeq == (old(sendSeq) + 1) % TWO64
      ensures frame == EncodeFrame(key, SERVER_TO_AGENT, sendSeq, data)
    {
      sendSeq := (sendSeq + 1) % TWO64;
      frame := EncodeP2pFrame(key, SERVER_TO_AGENT, sendSeq, data);
    }

    /** Reads datagrams until one is accepted; `datagrams` is what arrives before the deadline. */
    method ReadResponse(datagrams: seq<Frame>) returns (payload: Option<Bytes>, read: nat)
      modifies this`recvSeq
      ensures read <= |datagrams|
      ensures forall i :: 0 <= i < read - 1 ==> DecodeFrame(key, AGENT_TO_SERVER, old(recvSeq), datagrams[i]).Err?
      ensures payload.None? ==> read == |datagrams| && recvSeq == old(recvSeq) &&
                                forall f <- datagrams :: DecodeFrame(key, AGENT_TO_SERVER, recvSeq, f).Err?
      ensures payload.Some? ==> read > 0 && recvSeq > old(recvSeq) &&
                                DecodeFrame(key, AGENT_TO_SERVER, old(recvSeq), datagrams[read - 1])
                                == Ok(Opened(payload.value, recvSeq))
    {
      read := 0;
      while read < |datagrams|
        invariant read <= |datagrams| && recvSeq == old(recvSeq)
        invariant forall i :: 0 <= i < read ==> DecodeFrame(key, AGENT_TO_SERVER, recvSeq, datagrams[i]).Err?
      {
        var r := DecodeFrame(key, AGENT_TO_SERVER, recvSeq, datagrams[read]);
        read := read + 1;
        if r.Ok? {
          recvSeq := r.value.sequence;
          return Some(r.value.payload), read;
        }
      }
      payload := None;
    }
  }

  datatype Handled = Ignored | Stopped | Replied(frame: Frame)

  /** The agent's end: each accepted request is passed to the local service and its answer is sent back. */
  class DatagramProxy {
    const key: Bytes
    var received: Uint64
    var sent: Uint64

    constructor (key: Bytes)
      ensures this.key == key && received == 0 && sent == 0
    {
      this.key, received, sent := key, 0, 0;
    }

    /** `answer` is what the local service would say, None when the local round trip fails. */
    method Handle(frame: Frame, answer: Option<Bytes>) returns (h: Handled)
      modifies this
      ensures var request := DecodeFrame(key, SERVER_TO_AGENT, old(received), frame);
        && received == (if request.Ok? then request.value.sequence else old(received))
        && sent == (if request.Ok? && answer.Some? then (old(sent) + 1) % TWO64 else old(sent))
        && h == Answered(key, request, answer, sent)
    {
      var request := DecodeFrame(key, SERVER_TO_AGENT, received, frame);
      if request.Err? {
        return Ignored;
      }
      received := request.value.sequence;
      if answer.None? {
        return Stopped;
      }
      sent := (sent + 1) % TWO64;
      var reply := EncodeP2pFrame(key, AGENT_TO_SERVER, sent, answer.value);
      if reply.Err? {
        return Stopped;
      }
      return Replied(reply.value);
    }
  }

  function Answered(key: Bytes, request: Result<Opened, Error>, answer: Option<Bytes>, sequence: Uint64): Handled {
    if request.Err? then Ignored
    else if answer.None? then Stopped
    else
      var reply := EncodeFrame(key, AGENT_TO_SERVER, sequence, answer.value);
      if reply.Err? then Stopped else Replied(reply.value)
  }

  /** The agent's reply to an accepted request is accepted by a server that has seen less, as the answer; there is none
      exactly when the local service fails or answers too much. */
  lemma ReplyIsAccepted(key: Bytes, request: Result<Opened, Error>, answer: Option<Bytes>, sequence: Uint64, last: Uint64)
    requires |key| == KEY_SIZE && last < sequence
    ensures var h := Answered(key, request, answer, sequence);
      && (h.Ignored? <==> request.Err?)
      && (h.Stopped? <==> request.Ok? && (answer.None? || |answer.value| > 65478))
      && (h.Replied? ==> DecodeFrame(key, 2, last, h.frame) == Ok(Opened(answer.value, sequence)))
  {
    if answer.Some? {
      EncodedIsDecoded(key, AGENT_TO_SERVER, sequence, answer.value, last);
    }
  }

  /** What the machine's agent does with a request is what the class answers. */
  lemma AnsweredInMachine(s: State, o: Opened, answer: Option<Bytes>)
    ensures var t := AgentHandles(s, o, answer);
      var h := Answered(s.key, Ok(o), answer, t.toServer.sent);
      && (t.stopped <==> h.Stopped?)
      && t.boxes == (if h.Replied? then s.boxes + {h.frame.body} else s.boxes)
      && t.toAgent.last == o.sequence && t.toAgent.accepted == s.toAgent.accepted + [o]
      && t.toServer.sent == if answer.Some? then (s.toServer.sent + 1) % TWO64 else s.toServer.sent
  {
  }

  // ---------- runs over an adversarial network ----------

  /** One direction: the sender's counter and everything it was asked to send, the receiver's last sequence and
      everything it accepted. */
  datatype Flow = Flow(sent: Uint64, payloads: seq<Bytes>, last: Uint64, accepted: seq<Opened>)

  /** `boxes` holds every box sealed so far: the network may put any of them behind any header, as often and in
      whatever order it likes, to either side. */
  datatype State = State(key: Bytes, toAgent: Flow, toServer: Flow, boxes: set<Box>, stopped: bool)

  datatype Step =
    | ServerSends(data: Bytes)
    | AgentReceives(frame: Frame, answer: Option<Bytes>)
    | ServerReceives(frame: Frame)

  predicate Initial(s: State) {
    && |s.key| == KEY_SIZE && s.boxes == {} && !s.stopped
    && s.toAgent == Flow(0, [], 0, []) && s.toServer == Flow(0, [], 0, [])
  }

  /** What the network can deliver without the key. */
  predicate Deliverable(s: State, frame: Frame) {
    frame.body.Junk? || frame.body.key != s.key || frame.body in s.boxes
  }

  function Sending(f: Flow, data: Bytes): Flow {
    f.(sent := (f.sent + 1) % TWO64, payloads := f.payloads + [data])
  }

  function Accepting(f: Flow, o: Opened): Flow {
    f.(last := o.sequence, accepted := f.accepted + [o])
  }

  function Emitted(boxes: set<Box>, frame: Result<Frame, Error>): set<Box> {
    if frame.Ok? then boxes + {frame.value.body} else boxes
  }

  function AgentHandles(s: State, o: Opened, answer: Option<Bytes>): State {
    var toAgent := Accepting(s.toAgent, o);
    if answer.None? then s.(toAgent := toAgent, stopped := true)
    else
      var toServer := Sending(s.toServer, answer.value);
      var reply := EncodeFrame(s.key, AGENT_TO_SERVER, toServer.sent, answer.value);
      s.(toAgent := toAgent, toServer := toServer, boxes := Emitted(s.boxes, reply), stopped := reply.Err?)
  }

  function Next(s: State, step: Step): State {
    match step
    case ServerSends(data) =>
      var toAgent := Sending(s.toAgent, data);
      s.(toAgent := toAgent, boxes := Emitted(s.boxes, EncodeFrame(s.key, SERVER_TO_AGENT, toAgent.sent, data)))
    case AgentReceives(frame, answer) =>
      var r := DecodeFrame(s.key, SERVER_TO_AGENT, s.toAgent.last, frame);
      if !Deliverable(s, frame) || s.stopped || r.Err? then s else AgentHandles(s, r.value, answer)
    case ServerReceives(frame) =>
      var r := DecodeFrame(s.key, AGENT_TO_SERVER, s.toServer.last, frame);
      if !Deliverable(s, frame) || r.Err? then s else s.(toServer := Accepting(s.toServer, r.value))
  }

  function Run(s: State, steps: seq<Step>): State
    decreases |steps|
  {
    if steps == [] then s else Next(Run(s, steps[..|steps| - 1]), steps[|steps| - 1])
  }

  /** The sequence that a box claims, and the payload that was sent under it. */
  predicate SentUnder(key: Bytes, d: Byte, payloads: seq<Bytes>, n: nat, b: Box) {
    1 <= n <= |payloads| && n < TWO64 && b == Seal(key, d, n, payloads[n - 1]).body
  }

  predicate Genuine(s: State, b: Box) {
    b.Sealed? && |b.header| == HEADER_SIZE &&
    var n := ReadUint64(b.header[5..]);
    || SentUnder(s.key, SERVER_TO_AGENT, s.toAgent.payloads, n, b)
    || SentUnder(s.key, AGENT_TO_SERVER, s.toServer.payloads, n, b)
  }

  /** What one direction has accepted was sent in that direction, under strictly increasing sequences. */
  predicate InOrder(f: Flow) {
    && (forall i :: 0 <= i < |f.accepted| ==>
          1 <= f.accepted[i].sequence <= |f.payloads| && f.accepted[i].payload == f.payloads[f.accepted[i].sequence - 1])
    && (forall i, j :: 0 <= i < j < |f.accepted| ==> f.accepted[i].sequence < f.accepted[j].sequence)
    && f.last == (if f.accepted == [] then 0 else f.accepted[|f.accepted| - 1].sequence)
  }

  predicate Inv(s: State) {
    && |s.key| == KEY_SIZE
    && (forall b <- s.boxes :: Genuine(s, b))
    && InOrder(s.toAgent) && InOrder(s.toServer)
    && s.toAgent.sent == |s.toAgent.payloads| && s.toServer.sent == |s.toServer.payloads|
    && |s.toServer.payloads| <= |s.toAgent.accepted|
    && (!s.stopped ==> |s.toServer.payloads| == |s.toAgent.accepted|)
  }

  lemma SealedIsGenuine(key: Bytes, d: Byte, n: Uint64, payload: Bytes)
    ensures ReadUint64(Seal(key, d, n, payload).body.header[5..]) == n
  {
    HeaderReads(d, n);
  }

  lemma StillGenuine(s: State, s': State, b: Box)
    requires Genuine(s, b) && s'.key == s.key
    requires s.toAgent.payloads <= s'.toAgent.payloads && s.toServer.payloads <= s'.toServer.payloads
    ensures Genuine(s', b)
  {
  }

  lemma SendingInOrder(f: Flow, data: Bytes)
    requires InOrder(f)
    ensures InOrder(Sending(f, data))
  {
  }

  lemma AcceptingInOrder(f: Flow, o: Opened)
    requires InOrder(f) && f.last < o.sequence <= |f.payloads| && o.payload == f.payloads[o.sequence - 1]
    ensures InOrder(Accepting(f, o))
  {
  }

  /** A delivered frame that is accepted carries what was sent in that direction under its sequence. */
  lemma AcceptedWasSent(s: State, d: Byte, last: Uint64, frame: Frame)
    requires forall b <- s.boxes :: Genuine(s, b)
    requires Deliverable(s, frame) && DecodeFrame(s.key, d, last, frame).Ok?
    requires d == SERVER_TO_AGENT || d == AGENT_TO_SERVER
    ensures var o := DecodeFrame(s.key, d, last, frame).value;
      var payloads := if d == SERVER_TO_AGENT then s.toAgent.payloads else s.toServer.payloads;
      last < o.sequence <= |payloads| && o.payload == payloads[o.sequence - 1]
  {
    DecodedIsSealed(s.key, d, last, frame);
    var o := DecodeFrame(s.key, d, last, frame).value;
    HeaderReads(d, o.sequence);
    HeaderReads(3 - d, o.sequence);
    assert Genuine(s, frame.body);
  }

  lemma {:induction false} IncreasingIsShort(a: seq<Opened>, bound: nat)
    requires forall i, j :: 0 <= i < j < |a| ==> a[i].sequence < a[j].sequence
    requires forall i :: 0 <= i < |a| ==> 1 <= a[i].sequence <= bound
    ensures |a| <= bound
  {
    if a != [] {
      var n := |a| - 1;
      assert n > 0 ==> a[n - 1].sequence < a[n].sequence;
      IncreasingIsShort(a[..n], a[n].sequence - 1);
    }
  }

  lemma OldBoxesStayGenuine(s: State, s': State)
    requires forall b <- s.boxes :: Genuine(s, b)
    requires s'.key == s.key
    requires s.toAgent.payloads <= s'.toAgent.payloads && s.toServer.payloads <= s'.toServer.payloads
    ensures forall b <- s.boxes :: Genuine(s', b)
  {
    forall b | b in s.boxes ensures Genuine(s', b) {
      StillGenuine(s, s', b);
    }
  }

  lemma ServerSendsInv(s: State, data: Bytes)
    requires Inv(s) && |s.toAgent.payloads| + 1 < TWO64
    ensures Inv(Next(s, ServerSends(data)))
  {
    var s' := Next(s, ServerSends(data));
    SendingInOrder(s.toAgent, data);
    SealedIsGenuine(s.key, SERVER_TO_AGENT, s'.toAgent.sent, data);
    OldBoxesStayGenuine(s, s');
  }

  lemma AgentHandlesInv(s: State, o: Opened, answer: Option<Bytes>)
    requires Inv(s) && |s.toAgent.payloads| < TWO64 && !s.stopped
    requires InOrder(Accepting(s.toAgent, o))
    ensures Inv(AgentHandles(s, o, answer))
  {
    var s' := AgentHandles(s, o, answer);
    if answer.Some? {
      IncreasingIsShort(s'.toAgent.accepted, |s.toAgent.payloads|);
      SendingInOrder(s.toServer, answer.value);
      SealedIsGenuine(s.key, AGENT_TO_SERVER, s'.toServer.sent, answer.value);
    }
    OldBoxesStayGenuine(s, s');
  }

  lemma ServerReceivesInv(s: State, o: Opened)
    requires Inv(s) && InOrder(Accepting(s.toServer, o))
    ensures Inv(s.(toServer := Accepting(s.toServer, o)))
  {
    OldBoxesStayGenuine(s, s.(toServer := Accepting(s.toServer, o)));
  }

  lemma NextInv(s: State, step: Step)
    requires Inv(s) && |Next(s, step).toAgent.payloads| < TWO64
    ensures Inv(Next(s, step))
  {
    hide InOrder, Genuine, DecodeFrame;
    match step {
      case ServerSends(data) => ServerSendsInv(s, data);
      case AgentReceives(frame, answer) =>
        var r := DecodeFrame(s.key, SERVER_TO_AGENT, s.toAgent.last, frame);
        if Deliverable(s, frame) && !s.stopped && r.Ok? {
          AcceptedWasSent(s, SERVER_TO_AGENT, s.toAgent.last, frame);
          AcceptingInOrder(s.toAgent, r.value);
          AgentHandlesInv(s, r.value, answer);
        }
      case ServerReceives(frame) =>
        var r := DecodeFrame(s.key, AGENT_TO_SERVER, s.toServer.last, frame);
        if Deliverable(s, frame) && r.Ok? {
          AcceptedWasSent(s, AGENT_TO_SERVER, s.toServer.last, frame);
          AcceptingInOrder(s.toServer, r.value);
          ServerReceivesInv(s, r.value);
        }
    }
  }

  /** The server's sequence has not wrapped; the agent's cannot wrap before it. */
  lemma {:induction false} RunInv(s: State, steps: seq<Step>)
    requires Initial(s) && |Run(s, steps).toAgent.payloads| < TWO64
    ensures Inv(Run(s, steps))
  {
    if steps != [] {
      var before := Run(s, steps[..|steps| - 1]);
      assert |before.toAgent.payloads| <= |Next(before, steps[|steps| - 1]).toAgent.payloads|;
      RunInv(s, steps[..|steps| - 1]);
      NextInv(before, steps[|steps| - 1]);
    }
  }

  /** Whatever the network does, each side accepts what the other side sent, in the order of sending, each
      payload at most once and never its own; a request is answered at most once. */
  lemma {:induction false} DatagramsAreHandledAtMostOnce(s: State, steps: seq<Step>)
    requires Initial(s) && |Run(s, steps).toAgent.payloads| < TWO64
    ensures var e := Run(s, steps); InOrder(e.toAgent) && InOrder(e.toServer)
    ensures var e := Run(s, steps);
      |e.toServer.accepted| <= |e.toServer.payloads| <= |e.toAgent.accepted| <= |e.toAgent.payloads|
  {
    RunInv(s, steps);
    var e := Run(s, steps);
    IncreasingIsShort(e.toAgent.accepted, |e.toAgent.payloads|);
    IncreasingIsShort(e.toServer.accepted, |e.toServer.payloads|);
  }

  /** No nonce is used for two different boxes under the session key. */
  lemma {:induction false} NoncesAreFresh(s: State, steps: seq<Step>, a: Box, b: Box)
    requires Initial(s) && |Run(s, steps).toAgent.payloads| < TWO64
    requires a in Run(s, steps).boxes && b in Run(s, steps).boxes
    ensures a.Sealed? && b.Sealed? && (a.nonce == b.nonce ==> a == b)
  {
    RunInv(s, steps);
    var e := Run(s, steps);
    assert Genuine(e, a) && Genuine(e, b);
    var n, m := ReadUint64(a.header[5..]), ReadUint64(b.header[5..]);
    NonceIsInjective(SERVER_TO_AGENT, n, SERVER_TO_AGENT, m);
    NonceIsInjective(SERVER_TO_AGENT, n, AGENT_TO_SERVER, m);
    NonceIsInjective(AGENT_TO_SERVER, n, SERVER_TO_AGENT, m);
    NonceIsInjective(AGENT_TO_SERVER, n, AGENT_TO_SERVER, m);
  }
}
