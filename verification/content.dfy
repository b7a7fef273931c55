/**
 * Splitting content into frames and putting it together again: section 4.2.6 of AMQP 0-9-1
 * (streadway/amqp channel.go and connection.go).
 */
module Content {
  import opened Wire
  import opened Frames

  /** The closing methods, and all others; of those only whether content follows matters here. */
  datatype Message =
    | ConnectionClose
    | ConnectionCloseOk
    | ChannelClose
    | ChannelCloseOk
    | Method(id: nat, classId: UInt16, carriesContent: bool)
  {
    predicate CarriesContent() {
      Method? && carriesContent
    }
  }

  /** Header and body frames. */
  type Part = f: Frame | !f.HeartbeatFrame? witness BodyFrame(0, [])

  datatype Inbound =
    | MethodFrame(channelId: UInt16, message: Message)
    | ContentFrame(frame: Part)
  {
    function Channel(): UInt16 {
      match this
      case MethodFrame(channel, _) => channel
      case ContentFrame(f) => f.channel
    }

    predicate Closes() {
      MethodFrame? && message == ChannelClose
    }
  }

  /** A message as a channel hands it on. */
  datatype Delivery = Plain(message: Message) | Full(message: Message, properties: Properties, body: Bytes)

  // ---------------------------------------------------------------- sending

  const FRAME_HEADER_SIZE := 8

  /** The body cut into pieces of `size` bytes, the last one shorter. */
  function Chunks(body: Bytes, size: nat): seq<Bytes>
    requires size > 0
    decreases |body|
  {
    if body == [] then []
    else if |body| <= size then [body]
    else [body[..size]] + Chunks(body[size..], size)
  }

  function BodyFrames(channel: UInt16, chunks: seq<Bytes>): (r: seq<Inbound>)
    ensures |r| == |chunks| && forall i :: 0 <= i < |r| ==> r[i] == ContentFrame(BodyFrame(channel, chunks[i]))
  {
    if chunks == [] then [] else [ContentFrame(BodyFrame(channel, chunks[0]))] + BodyFrames(channel, chunks[1..])
  }

  /** The frames of a message that come before the pieces of its body. */
  function Front(channel: UInt16, d: Delivery): seq<Inbound>
    requires Consistent(d)
  {
    match d
    case Plain(m) => [MethodFrame(channel, m)]
    case Full(m, p, body) => [MethodFrame(channel, m), ContentFrame(HeaderFrame(channel, m.classId, 0, |body|, p))]
  }

  /** All frames of one message: method, header, body pieces. */
  function Emitted(channel: UInt16, d: Delivery, frameSize: int): seq<Inbound>
    requires Sendable(d, frameSize)
  {
    Front(channel, d) +
    (if d.Plain? || d.body == [] then [] else BodyFrames(channel, Chunks(d.body, frameSize - FRAME_HEADER_SIZE)))
  }

  /** What sendOpen needs to come to an end: an empty body, or room in a frame for some of it. */
  predicate Chunkable(bodyLength: nat, frameSize: int) {
    bodyLength == 0 || frameSize > FRAME_HEADER_SIZE
  }

  /** Content goes with a method that carries it; no slice is longer than 64 bits can say. */
  predicate Consistent(d: Delivery) {
    match d
    case Plain(m) => !m.CarriesContent()
    case Full(m, _, body) => m.CarriesContent() && |body| < U64
  }

  predicate Sendable(d: Delivery, frameSize: int) {
    Consistent(d) && (d.Full? ==> Chunkable(|d.body|, frameSize))
  }

  // ---------------------------------------------------------------- when sending ends

  /** The loop over the body: its two indices, or how it ended. */
  datatype Progress = Looping(i: int, j: int) | Done | Broken

  /** `n` turns of the loop. A slice with bounds out of order crashes. */
  function Turns(n: nat, size: int, length: nat): (p: Progress)
    ensures p.Looping? ==> 0 <= p.i <= length
  {
    if n == 0 then Looping(0, size)
    else
      match Turns(n - 1, size, length)
      case Done => Done
      case Broken => Broken
      case Looping(i, j) =>
        if i >= length then Done
        else
          var j' := if j > length then length else j;
          if j' < i then Broken else Looping(j', j' + size)
  }

  /** The body pieces sent in the first `n` turns. */
  function Pieces(n: nat, size: int, body: Bytes): seq<Bytes> {
    if n == 0 then []
    else
      Pieces(n - 1, size, body) +
      match Turns(n - 1, size, |body|)
      case Looping(i, j) =>
        var j' := if j > |body| then |body| else j;
        if i < |body| && i <= j' then [body[i..j']] else []
      case _ => []
  }

  /** All that is sent of a message in that many turns. */
  function SentIn(n: nat, channel: UInt16, d: Delivery, frameSize: int): seq<Inbound>
    requires Consistent(d)
  {
    Front(channel, d) + if d.Plain? then [] else BodyFrames(channel, Pieces(n, frameSize - FRAME_HEADER_SIZE, d.body))
  }

  lemma {:induction false} PiecesAreChunks(n: nat, size: nat, body: Bytes)
    requires size > 0
    ensures match Turns(n, size, |body|)
            case Looping(i, j) => j == i + size && Pieces(n, size, body) + Chunks(body[i..], size) == Chunks(body, size)
            case Done => Pieces(n, size, body) == Chunks(body, size)
            case Broken => false
  {
    hide Chunks;
    if n == 0 {
      assert body[0..] == body && [] + Chunks(body, size) == Chunks(body, size);
    } else {
      PiecesAreChunks(n - 1, size, body);
      match Turns(n - 1, size, |body|)
      case Done =>
        assert Pieces(n, size, body) == Pieces(n - 1, size, body);
      case Looping(i, j) =>
        if i >= |body| {
          NoChunks(size);
          assert body[i..] == [] && Pieces(n, size, body) == Pieces(n - 1, size, body);
        } else {
          NextChunk(body, i, if j > |body| then |body| else j, size);
        }
    }
  }

  lemma NoChunks(size: nat)
    requires size > 0
    ensures Chunks([], size) == []
  {}

  lemma NextChunk(body: Bytes, i: nat, j: nat, size: nat)
    requires size > 0 && i < |body| && j == if i + size > |body| then |body| else i + size
    ensures Chunks(body[i..], size) == [body[i..j]] + Chunks(body[j..], size)
  {
    if i + size >= |body| {
      assert body[i..j] == body[i..] && body[j..] == [];
    } else {
      assert body[i..][..size] == body[i..j] && body[i..][size..] == body[j..];
    }
  }

  /** A body that has been sent to its end has been sent in its chunks. */
  lemma SentMeansEmitted(n: nat, channel: UInt16, d: Delivery, frameSize: int)
    requires Consistent(d) && (d.Full? ==> Turns(n, frameSize - FRAME_HEADER_SIZE, |d.body|) == Done)
    ensures Sendable(d, frameSize) && SentIn(n, channel, d, frameSize) == Emitted(channel, d, frameSize)
  {
    if d.Full? {
      var size := frameSize - FRAME_HEADER_SIZE;
      hide Chunks;
      if d.body == [] {
        NothingToSend(n, size);
      } else {
        if size <= 0 {
          TurnsStuck(n, size, |d.body|);
        }
        PiecesAreChunks(n, size, d.body);
      }
    }
  }

  lemma {:induction false} NothingToSend(n: nat, size: int)
    ensures Pieces(n, size, []) == []
  {
    if n > 0 {
      NothingToSend(n - 1, size);
    }
  }

  lemma {:induction false} TurnsAdvance(n: nat, size: int, length: nat)
    requires size > 0
    ensures !Turns(n, size, length).Broken?
    ensures Turns(n, size, length).Looping? ==>
              Turns(n, size, length).j == Turns(n, size, length).i + size && (Turns(n, size, length).i >= n || Turns(n, size, length).i == length)
    ensures n > length ==> Turns(n, size, length).Done? || Turns(n, size, length) == Looping(length, length + size)
    ensures n > length + 1 ==> Turns(n, size, length).Done?
  {
    if n > 0 {
      TurnsAdvance(n - 1, size, length);
    }
  }

  lemma {:induction false} TurnsStuck(n: nat, size: int, length: nat)
    requires size <= 0 && length > 0
    ensures size == 0 ==> Turns(n, size, length) == Looping(0, 0)
    ensures size < 0 && n > 0 ==> Turns(n, size, length) == Broken
  {
    if n > 0 {
      TurnsStuck(n - 1, size, length);
    }
  }

  predicate DoneWithin(n: nat, frameSize: int, length: nat) {
    Turns(n, frameSize - FRAME_HEADER_SIZE, length) == Done
  }

  /**
   * Sending ends well exactly for an empty body or a frame size above eight: at eight it sends empty
   * frames forever, below it slices out of bounds. The documentation calls a frame size of 0 unlimited.
   */
  lemma SendingEnds(frameSize: int, length: nat)
    ensures (exists n :: DoneWithin(n, frameSize, length)) <==> Chunkable(length, frameSize)
  {
    var size := frameSize - FRAME_HEADER_SIZE;
    if length == 0 {
      assert Turns(0, size, 0) == Looping(0, size);
      assert DoneWithin(1, frameSize, 0);
    } else if size > 0 {
      TurnsAdvance(length + 2, size, length);
      assert DoneWithin(length + 2, frameSize, length);
    } else {
      forall n: nat ensures !DoneWithin(n, frameSize, length) {
        TurnsStuck(n, size, length);
      }
    }
  }

  /** The smaller of two limits, where 0 stands for none. */
  function Pick(client: int, server: int): int {
    if client == 0 || server == 0 then
      if client > server then client else server
    else
      if client > server then server else client
  }

  /** What is tuned is one of the two limits, within both; there is none only if neither side sets one. */
  lemma PickIsTheTighter(client: nat, server: nat)
    ensures var n := Pick(client, server);
            && (n == client || n == server)
            && (client > 0 ==> 0 < n <= client) && (server > 0 ==> 0 < n <= server)
  {}

  /** With no limit on either side the tuned frame size is 0, and no body can be sent. */
  lemma UnlimitedCannotSend(client: nat, server: nat, length: nat)
    ensures Chunkable(length, Pick(client, server)) <==>
            length == 0 || ((client > 8 || client == 0) && (server > 8 || server == 0) && !(client == 0 && server == 0))
  {}

  // ---------------------------------------------------------------- what is sent

  function Concat(chunks: seq<Bytes>): Bytes {
    if chunks == [] then [] else chunks[0] + Concat(chunks[1..])
  }

  /** The pieces make up the body; each holds something, and no more than fits. */
  lemma {:induction false} ChunksMakeTheBody(body: Bytes, size: nat)
    requires size > 0
    ensures Concat(Chunks(body, size)) == body
    ensures forall c :: c in Chunks(body, size) ==> 0 < |c| <= size
    ensures forall i :: 0 <= i < |Chunks(body, size)| - 1 ==> |Chunks(body, size)[i]| == size
    decreases |body|
  {
    if |body| > size {
      ChunksMakeTheBody(body[size..], size);
      assert body == body[..size] + body[size..];
    } else if body != [] {
      assert Concat([body]) == body + Concat([]) == body;
    }
  }

  /** No body frame takes more bytes on the wire than the frame size that was agreed. */
  lemma FramesFit(channel: UInt16, d: Delivery, frameSize: int, f: Inbound)
    requires Sendable(d, frameSize) && f in Emitted(channel, d, frameSize) && f.ContentFrame? && f.frame.BodyFrame?
    ensures FRAME_HEADER_SIZE < |EncodeFrame(f.frame, [])| <= frameSize
  {
    var size := frameSize - FRAME_HEADER_SIZE;
    ChunksMakeTheBody(d.body, size);
    var frames := BodyFrames(channel, Chunks(d.body, size));
    assert f in frames;
    var i :| 0 <= i < |frames| && frames[i] == f;
    assert f.frame.body == Chunks(d.body, size)[i];
  }

  /**
   * What goes before the body: the method, then a header with its class, the weight 0 and the length of
   * the body. All frames of a message go on the channel of their sender.
   */
  lemma EmittedFrames(channel: UInt16, d: Delivery, frameSize: int)
    requires Sendable(d, frameSize)
    ensures var fs := Emitted(channel, d, frameSize);
            && fs != [] && fs[0] == MethodFrame(channel, d.message)
            && (d.Plain? ==> |fs| == 1)
            && (d.Full? ==> |fs| >= 2 && fs[1] == ContentFrame(HeaderFrame(channel, d.message.classId, 0, |d.body|, d.properties)))
            && (forall i :: 2 <= i < |fs| ==> fs[i].ContentFrame? && fs[i].frame.BodyFrame?)
            && (forall i :: 0 <= i < |fs| ==> fs[i].Channel() == channel)
  {
    hide Chunks;
  }

  // ---------------------------------------------------------------- receiving

  datatype Stage = RecvMethod | RecvHeader | RecvContent

  /** One channel's side of reassembly, and what it has handed on so far. */
  datatype Machine = Machine(
    stage: Stage,
    message: Message,
    properties: Properties,
    size: nat,
    body: Bytes,
    log: seq<Delivery>)

  function OnMethod(m: Machine, msg: Message): Machine {
    if msg.CarriesContent() then m.(stage := RecvHeader, message := msg, body := [])
    else m.(stage := RecvMethod, log := m.log + [Plain(msg)])
  }

  function Complete(m: Machine): Machine {
    m.(stage := RecvMethod, log := m.log + [Full(m.message, m.properties, m.body)])
  }

  function Step(m: Machine, f: Inbound): Machine
  {
    match f
    case MethodFrame(_, msg) => OnMethod(m, msg)
    case ContentFrame(HeaderFrame(_, _, _, size, p)) =>
      if m.stage == RecvHeader then
        var h := m.(properties := p, size := size);
        if size == 0 then Complete(h) else h.(stage := RecvContent)
      else m.(stage := RecvMethod)
    case ContentFrame(BodyFrame(_, body)) =>
      if m.stage == RecvContent then
        var b := m.(body := m.body + body);
        if |b.body| >= m.size then Complete(b) else b
      else m.(stage := RecvMethod)
  }

  function Run(m: Machine, fs: seq<Inbound>): Machine
    decreases |fs|
  {
    if fs == [] then m else Run(Step(m, fs[0]), fs[1..])
  }

  lemma {:induction false} RunAppend(m: Machine, a: seq<Inbound>, b: seq<Inbound>)
    ensures Run(m, a + b) == Run(Run(m, a), b)
    decreases |a|
  {
    hide Step;
    if a == [] {
      assert a + b == b;
    } else {
      assert (a + b)[1..] == a[1..] + b;
      RunAppend(Step(m, a[0]), a[1..], b);
    }
  }

  lemma FirstPiece(m: Machine, channel: UInt16, chunks: seq<Bytes>)
    requires chunks != []
    ensures Run(m, BodyFrames(channel, chunks)) ==
            Run(Step(m, ContentFrame(BodyFrame(channel, chunks[0]))), BodyFrames(channel, chunks[1..]))
  {
    hide Step;
    assert BodyFrames(channel, chunks)[1..] == BodyFrames(channel, chunks[1..]);
  }

  lemma NoPieces(m: Machine, channel: UInt16)
    ensures Run(m, BodyFrames(channel, [])) == m && Concat([]) == []
  {}

  lemma ConcatFirst(chunks: seq<Bytes>)
    requires chunks != []
    ensures Concat(chunks) == chunks[0] + Concat(chunks[1..])
  {}

  /** Body pieces that add up to what the header promised are handed on as one body, once. */
  lemma {:induction false} BodyArrives(m: Machine, channel: UInt16, chunks: seq<Bytes>)
    requires m.stage == RecvContent && |m.body| < m.size == |m.body| + |Concat(chunks)|
    requires forall i :: 0 <= i < |chunks| ==> chunks[i] != []
    ensures Run(m, BodyFrames(channel, chunks)) == Complete(m.(body := m.body + Concat(chunks)))
    decreases chunks
  {
    hide Run, BodyFrames, Concat;
    NoPieces(m, channel);
    ConcatFirst(chunks);
    var c, rest := chunks[0], chunks[1..];
    var next := m.(body := m.body + c);
    assert m.body + c + Concat(rest) == m.body + Concat(chunks);
    FirstPiece(m, channel, chunks);
    if rest == [] {
      assert c + Concat(rest) == c;
      NoPieces(Complete(next), channel);
    } else {
      ConcatFirst(rest);
      assert rest[0] == chunks[1] != [];
      BodyArrives(next, channel, rest);
    }
  }

  predicate Quiet(m: Machine, log: seq<Delivery>) {
    m.stage == RecvMethod && m.log == log
  }

  /**
   * Whatever state the channel is in, interrupted content included, the frames of one message make it
   * hand on that message, with the identical body, exactly once, and wait for the next method.
   */
  lemma {:induction false} MessageArrives(m: Machine, channel: UInt16, d: Delivery, frameSize: int)
    requires Sendable(d, frameSize)
    ensures Quiet(Run(m, Emitted(channel, d, frameSize)), m.log + [d])
  {
    match d
    case Plain(msg) =>
      assert Run(Step(m, MethodFrame(channel, msg)), []) == OnMethod(m, msg);
    case Full(_, _, _) =>
      ContentMessageArrives(m, channel, d, frameSize);
  }

  lemma ContentMessageArrives(m: Machine, channel: UInt16, d: Delivery, frameSize: int)
    requires Sendable(d, frameSize) && d.Full?
    ensures Quiet(Run(m, Emitted(channel, d, frameSize)), m.log + [d])
  {
    hide Run, Step, Chunks, Quiet, Front, Announces, BodyFrames, Concat, Emitted;
    var a, b := FrontAnnounces(channel, d, frameSize);
    FrontOfMessage(m, a, b);
    if d.body == [] {
      EmptyContentArrives(m, a, b, d);
    } else {
      var chunks := Chunks(d.body, frameSize - FRAME_HEADER_SIZE);
      ChunksMakeTheBody(d.body, frameSize - FRAME_HEADER_SIZE);
      RunAppend(m, [a, b], BodyFrames(channel, chunks));
      assert forall i :: 0 <= i < |chunks| ==> chunks[i] in chunks;
      ContentArrives(m, a, b, d, chunks);
    }
  }

  lemma FrontAnnounces(channel: UInt16, d: Delivery, frameSize: int) returns (a: Inbound, b: Inbound)
    requires Sendable(d, frameSize) && d.Full?
    ensures Announces(a, b, d) && a.Channel() == channel
    ensures Emitted(channel, d, frameSize) ==
            if d.body == [] then [a, b] else [a, b] + BodyFrames(channel, Chunks(d.body, frameSize - FRAME_HEADER_SIZE))
  {
    hide Chunks, BodyFrames;
    var front := Front(channel, d);
    a, b := front[0], front[1];
    assert front == [a, b] && front + [] == front;
  }

  /** A method frame and the header frame that goes with it. */
  predicate Announces(a: Inbound, b: Inbound, d: Delivery) {
    && d.Full? && d.message.CarriesContent() && a.MethodFrame? && a.message == d.message
    && b.ContentFrame? && b.frame.HeaderFrame? && b.frame.size == |d.body| && b.frame.properties == d.properties
  }

  lemma EmptyContentArrives(m: Machine, a: Inbound, b: Inbound, d: Delivery)
    requires Announces(a, b, d) && d.body == []
    ensures Quiet(Step(Step(m, a), b), m.log + [d])
  {}

  lemma ContentArrives(m: Machine, a: Inbound, b: Inbound, d: Delivery, chunks: seq<Bytes>)
    requires Announces(a, b, d) && d.body != [] && Concat(chunks) == d.body
    requires forall i :: 0 <= i < |chunks| ==> chunks[i] != []
    ensures Quiet(Run(Step(Step(m, a), b), BodyFrames(a.Channel(), chunks)), m.log + [d])
  {
    hide Run;
    BodyArrives(Step(Step(m, a), b), a.Channel(), chunks);
    assert [] + d.body == d.body;
  }

  lemma FrontOfMessage(m: Machine, a: Inbound, b: Inbound)
    ensures Run(m, [a, b]) == Step(Step(m, a), b)
  {
    hide Step;
    assert [a, b][1..] == [b] && [b][1..] == [];
    assert Run(Step(Step(m, a), b), []) == Step(Step(m, a), b);
    assert Run(Step(m, a), [b]) == Step(Step(m, a), b);
  }

  /** The frames of one message after another, as the lock on a channel's sending keeps them. */
  function EmittedAll(channel: UInt16, ds: seq<Delivery>, frameSize: int): seq<Inbound>
    requires forall d :: d in ds ==> Sendable(d, frameSize)
  {
    if ds == [] then [] else Emitted(channel, ds[0], frameSize) + EmittedAll(channel, ds[1..], frameSize)
  }

  /** A whole conversation arrives in order, each message once, from whatever state it finds the channel in. */
  lemma {:induction false} ConversationArrives(m: Machine, channel: UInt16, ds: seq<Delivery>, frameSize: int)
    requires forall d :: d in ds ==> Sendable(d, frameSize)
    ensures Run(m, EmittedAll(channel, ds, frameSize)).log == m.log + ds
    ensures ds != [] ==> Run(m, EmittedAll(channel, ds, frameSize)).stage == RecvMethod
    decreases |ds|
  {
    hide Sendable, Emitted;
    if ds == [] {
      assert m.log + ds == m.log;
    } else {
      var first := Emitted(channel, ds[0], frameSize);
      MessageArrives(m, channel, ds[0], frameSize);
      RunAppend(m, first, EmittedAll(channel, ds[1..], frameSize));
      ConversationArrives(Run(m, first), channel, ds[1..], frameSize);
      assert m.log + [ds[0]] + ds[1..] == m.log + ds;
      if ds[1..] == [] {
        assert Run(Run(m, first), []) == Run(m, first);
      }
    }
  }

  // ---------------------------------------------------------------- what is handed on was sent

  predicate IsBody(f: Inbound) {
    f.ContentFrame? && f.frame.BodyFrame?
  }

  predicate IsHeader(f: Inbound) {
    f.ContentFrame? && f.frame.HeaderFrame?
  }

  /** Body frames end to end. */
  function Joined(fs: seq<Inbound>): Bytes {
    if fs == [] then []
    else Joined(fs[..|fs| - 1]) + if IsBody(fs[|fs| - 1]) then fs[|fs| - 1].frame.body else []
  }

  /** A method that announces content, its header, and pieces of the body. */
  predicate Opens(fs: seq<Inbound>, msg: Message, p: Properties, size: nat, body: Bytes) {
    && |fs| >= 2
    && fs[0].MethodFrame? && fs[0].message == msg && msg.CarriesContent()
    && IsHeader(fs[1]) && fs[1].frame.size == size && fs[1].frame.properties == p
    && (forall i :: 2 <= i < |fs| ==> IsBody(fs[i])) && Joined(fs[2..]) == body
  }

  /** These frames are one whole message and nothing else: the size announced is reached with the last one, not before. */
  predicate Carries(fs: seq<Inbound>, d: Delivery) {
    match d
    case Plain(msg) => |fs| == 1 && fs[0].MethodFrame? && fs[0].message == msg && !msg.CarriesContent()
    case Full(msg, p, body) =>
      && |fs| >= 2 && IsHeader(fs[1]) && Opens(fs, msg, p, fs[1].frame.size, body)
      && |body| >= fs[1].frame.size
      && (forall k :: 2 <= k < |fs| ==> |Joined(fs[2..k])| < fs[1].frame.size)
  }

  /** Where in a stream a message lies. */
  datatype Span = Span(from: nat, to: nat)

  predicate Lies(fs: seq<Inbound>, s: Span, d: Delivery) {
    s.from < s.to <= |fs| && Carries(fs[s.from..s.to], d)
  }

  /** The log entry by entry, each where it lies, one behind the other and all before `end`. */
  predicate Located(fs: seq<Inbound>, spans: seq<Span>, log: seq<Delivery>, end: nat) {
    && |spans| == |log|
    && (forall k :: 0 <= k < |log| ==> Lies(fs, spans[k], log[k]) && spans[k].to <= end)
    && (forall j, k :: 0 <= j < k < |log| ==> spans[j].to <= spans[k].from)
  }

  /** The frames from `start` on are what the channel has so far of the message it is waiting for. */
  predicate Underway(fs: seq<Inbound>, m: Machine, start: nat) {
    && start <= |fs|
    && (m.stage == RecvHeader ==>
          start == |fs| - 1 && fs[start].MethodFrame? && fs[start].message == m.message && m.message.CarriesContent() && m.body == [])
    && (m.stage == RecvContent ==>
          && Opens(fs[start..], m.message, m.properties, m.size, m.body)
          && (forall k :: 2 <= k <= |fs| - start ==> |Joined(fs[start..][2..k])| < m.size))
  }

  lemma StillLies(fs: seq<Inbound>, f: Inbound, s: Span, d: Delivery)
    requires Lies(fs, s, d)
    ensures Lies(fs + [f], s, d)
  {
    assert (fs + [f])[s.from..s.to] == fs[s.from..s.to];
  }

  lemma StillLocated(fs: seq<Inbound>, f: Inbound, spans: seq<Span>, log: seq<Delivery>, end: nat, later: nat)
    requires Located(fs, spans, log, end) && end <= later
    ensures Located(fs + [f], spans, log, later)
  {
    hide Lies;
    forall k | 0 <= k < |log| ensures Lies(fs + [f], spans[k], log[k]) {
      StillLies(fs, f, spans[k], log[k]);
    }
  }

  lemma LocatedMore(fs: seq<Inbound>, spans: seq<Span>, log: seq<Delivery>, end: nat, s: Span, d: Delivery)
    requires Located(fs, spans, log, end) && Lies(fs, s, d) && end <= s.from
    ensures Located(fs, spans + [s], log + [d], s.to)
  {
    hide Lies;
    assert Lies(fs, s, d) ==> s.from < s.to by { SpanNotEmpty(fs, s, d); }
  }

  lemma SpanNotEmpty(fs: seq<Inbound>, s: Span, d: Delivery)
    requires Lies(fs, s, d)
    ensures s.from < s.to
  {}

  lemma JoinedMore(fs: seq<Inbound>, f: Inbound)
    requires |fs| >= 2 && IsBody(f)
    ensures Joined((fs + [f])[2..]) == Joined(fs[2..]) + f.frame.body
    ensures forall k :: 2 <= k <= |fs| ==> (fs + [f])[2..k] == fs[2..k]
  {
    assert (fs + [f])[2..] == fs[2..] + [f];
    assert (fs[2..] + [f])[..|fs| - 2] == fs[2..];
  }

  /** One more piece of a body: the message goes on, or this completes it. */
  lemma OpensMore(fs: seq<Inbound>, f: Inbound, msg: Message, p: Properties, size: nat, body: Bytes)
    requires Opens(fs, msg, p, size, body) && IsBody(f)
    requires forall k :: 2 <= k <= |fs| ==> |Joined(fs[2..k])| < size
    ensures Opens(fs + [f], msg, p, size, body + f.frame.body)
    ensures |body + f.frame.body| >= size ==> Carries(fs + [f], Full(msg, p, body + f.frame.body))
    ensures |body + f.frame.body| < size ==> forall k :: 2 <= k <= |fs| + 1 ==> |Joined((fs + [f])[2..k])| < size
  {
    hide Joined;
    JoinedMore(fs, f);
    assert (fs + [f])[2..|fs| + 1] == (fs + [f])[2..];
  }

  /** The header that follows its method: a message without a body, or the beginning of one with a body. */
  lemma HeaderOpens(a: Inbound, b: Inbound, msg: Message)
    requires a.MethodFrame? && a.message == msg && msg.CarriesContent() && IsHeader(b)
    ensures Opens([a, b], msg, b.frame.properties, b.frame.size, [])
    ensures b.frame.size == 0 ==> Carries([a, b], Full(msg, b.frame.properties, []))
    ensures forall k :: 2 <= k <= 2 ==> Joined([a, b][2..k]) == []
  {
    assert [a, b][2..] == [] && [a, b][2..2] == [];
  }

  /** What one more frame does, seen from where the message underway began. */
  lemma OneFrame(fs: seq<Inbound>, f: Inbound, m: Machine, start: nat, end: nat) returns (next: nat, last: nat)
    requires Underway(fs, m, start) && end <= start
    ensures Underway(fs + [f], Step(m, f), next) && last <= next && end <= last
    ensures if Step(m, f).log == m.log then last == end
            else exists d, s :: Step(m, f).log == m.log + [d] && Lies(fs + [f], s, d) && end <= s.from && s.to == last
  {
    var n, t := |fs|, Step(m, f);
    var all := fs + [f];
    next, last := n + 1, end;
    match f
    case MethodFrame(_, msg) =>
      if msg.CarriesContent() {
        next := n;
      } else {
        last := n + 1;
        assert all[n..n + 1] == [f];
        assert Lies(all, Span(n, n + 1), Plain(msg));
      }
    case ContentFrame(HeaderFrame(_, _, _, size, p)) =>
      if m.stage == RecvHeader {
        HeaderOpens(fs[n - 1], f, m.message);
        assert all[n - 1..] == [fs[n - 1], f] && all[n - 1..n + 1] == [fs[n - 1], f];
        if size == 0 {
          last := n + 1;
          assert Lies(all, Span(n - 1, n + 1), Full(m.message, p, []));
        } else {
          next := n - 1;
        }
      }
    case ContentFrame(BodyFrame(_, body)) =>
      if m.stage == RecvContent {
        hide Opens, Carries, Joined;
        OpensMore(fs[start..], f, m.message, m.properties, m.size, m.body);
        assert all[start..] == fs[start..] + [f] && all[start..n + 1] == fs[start..] + [f];
        if |m.body + body| >= m.size {
          last := n + 1;
          assert Lies(all, Span(start, n + 1), Full(m.message, m.properties, m.body + body));
        } else {
          next := start;
        }
      }
  }

  lemma StepLast(m: Machine, fs: seq<Inbound>)
    requires fs != []
    ensures Run(m, fs) == Step(Run(m, fs[..|fs| - 1]), fs[|fs| - 1])
  {
    hide Step;
    var n := |fs| - 1;
    RunAppend(m, fs[..n], [fs[n]]);
    assert fs[..n] + [fs[n]] == fs && [fs[n]][1..] == [];
    assert Run(Run(m, fs[..n]), [fs[n]]) == Run(Step(Run(m, fs[..n]), fs[n]), []);
  }

  /** A channel that has just been opened. */
  predicate New(m: Machine) {
    m.stage == RecvMethod && m.log == []
  }

  lemma {:induction false} LogLies(m: Machine, fs: seq<Inbound>) returns (spans: seq<Span>, start: nat, end: nat)
    requires New(m)
    ensures Located(fs, spans, Run(m, fs).log, end) && end <= start && Underway(fs, Run(m, fs), start)
    decreases |fs|
  {
    hide Step, Lies, Underway, Located;
    if fs == [] {
      spans, start, end := [], 0, 0;
      NothingUnderway(m);
    } else {
      var n := |fs| - 1;
      var before, f, last := Run(m, fs[..n]), fs[n], 0;
      spans, start, end := LogLies(m, fs[..n]);
      StepLast(m, fs);
      assert fs[..n] + [f] == fs;
      start, last := OneFrame(fs[..n], f, before, start, end);
      StillLocated(fs[..n], f, spans, before.log, end, end);
      if Step(before, f).log != before.log {
        var d, s :| Step(before, f).log == before.log + [d] && Lies(fs, s, d) && end <= s.from && s.to == last;
        LocatedMore(fs, spans, before.log, end, s, d);
        spans := spans + [s];
      }
      end := last;
    }
  }

  lemma NothingUnderway(m: Machine)
    requires New(m)
    ensures Located([], [], Run(m, []).log, 0) && Underway([], Run(m, []), 0)
  {}

  /**
   * Whatever frames come to a channel, in whatever order: each message that it hands on was sent, whole,
   * in frames next to each other, and different messages lie in different frames, in the same order.
   */
  lemma HandedOnWasSent(m: Machine, fs: seq<Inbound>) returns (spans: seq<Span>)
    requires New(m)
    ensures var log := Run(m, fs).log;
            && |spans| == |log|
            && (forall k :: 0 <= k < |log| ==> spans[k].from < spans[k].to <= |fs| && Carries(fs[spans[k].from..spans[k].to], log[k]))
            && (forall j, k :: 0 <= j < k < |log| ==> spans[j].to <= spans[k].from)
  {
    hide Carries, Run;
    var start, end;
    spans, start, end := LogLies(m, fs);
  }

  /** Inside the frames of a message, from whatever state: what came of the body has been kept, and nothing handed on. */
  lemma {:induction false} PartArrives(m: Machine, fs: seq<Inbound>, d: Delivery, k: nat)
    requires d.Full? && Carries(fs, d) && 2 <= k < |fs|
    ensures Run(m, fs[..k]) ==
            m.(stage := RecvContent, message := d.message, properties := d.properties, size := fs[1].frame.size, body := Joined(fs[2..k]))
    decreases k
  {
    StepLast(m, fs[..k]);
    assert fs[..k][..k - 1] == fs[..k - 1] && fs[..k][k - 1] == fs[k - 1];
    if k == 2 {
      assert fs[..2] == [fs[0], fs[1]] && fs[2..2] == [];
      FrontOfMessage(m, fs[0], fs[1]);
      assert |Joined(fs[2..2])| < fs[1].frame.size;
    } else {
      PartArrives(m, fs, d, k - 1);
      assert fs[2..k][..k - 3] == fs[2..k - 1] && IsBody(fs[k - 1]);
      assert |Joined(fs[2..k])| < fs[1].frame.size;
    }
  }

  /** The frames of a message, however its body is cut, hand it on with the last one, whatever came before. */
  lemma {:induction false} CarriedArrives(m: Machine, fs: seq<Inbound>, d: Delivery)
    requires Carries(fs, d)
    ensures Quiet(Run(m, fs), m.log + [d])
  {
    var n := |fs| - 1;
    StepLast(m, fs);
    if d.Plain? {
      assert fs[..0] == [];
    } else if n == 1 {
      assert fs == [fs[0], fs[1]] && fs[2..] == [];
      FrontOfMessage(m, fs[0], fs[1]);
    } else {
      PartArrives(m, fs, d, n);
      assert fs[2..][..n - 2] == fs[2..n] && IsBody(fs[n]);
    }
  }

  lemma LogGrows(m: Machine, f: Inbound)
    ensures m.log <= Step(m, f).log && |Step(m, f).log| <= |m.log| + 1
  {}

  lemma {:induction false} RunLogGrows(m: Machine, fs: seq<Inbound>)
    ensures m.log <= Run(m, fs).log
    decreases |fs|
  {
    hide Step;
    if fs != [] {
      LogGrows(m, fs[0]);
      RunLogGrows(Step(m, fs[0]), fs[1..]);
    }
  }

  /** A channel hands on a message if and only if, somewhere, the frames of exactly that message came next to each other. */
  lemma HandedOnIffSent(m: Machine, fs: seq<Inbound>, d: Delivery)
    requires New(m)
    ensures d in Run(m, fs).log <==> exists s :: Lies(fs, s, d)
  {
    hide Run, Carries;
    var spans := HandedOnWasSent(m, fs);
    if d in Run(m, fs).log {
      var k :| 0 <= k < |spans| && Run(m, fs).log[k] == d;
      assert Lies(fs, spans[k], d);
    }
    if s :| Lies(fs, s, d) {
      SentIsHandedOn(m, fs, s, d);
    }
  }

  lemma SentIsHandedOn(m: Machine, fs: seq<Inbound>, s: Span, d: Delivery)
    requires Lies(fs, s, d)
    ensures d in Run(m, fs).log
  {
    hide Run, Carries;
    var before := Run(m, fs[..s.from]);
    CarriedArrives(before, fs[s.from..s.to], d);
    RunAppend(m, fs[..s.from], fs[s.from..s.to]);
    RunAppend(m, fs[..s.to], fs[s.to..]);
    RunLogGrows(Run(m, fs[..s.to]), fs[s.to..]);
    assert fs[..s.from] + fs[s.from..s.to] == fs[..s.to] && fs[..s.to] + fs[s.to..] == fs;
    assert (before.log + [d])[|before.log|] == d;
  }

  /** One frame hands on one message at most; a header or a piece of a body that is not due hands on none and is forgotten. */
  lemma StrayFrameHandsOnNothing(m: Machine, f: Inbound)
    ensures |Step(m, f).log| <= |m.log| + 1
    ensures (IsHeader(f) && m.stage != RecvHeader) || (IsBody(f) && m.stage != RecvContent) ==>
              Step(m, f) == m.(stage := RecvMethod)
    ensures m.stage != RecvMethod && f.MethodFrame? ==>
              Step(m, f).log == m.log + if f.message.CarriesContent() then [] else [Plain(f.message)]
  {}

  // ---------------------------------------------------------------- many channels

  /** What the reader gets off the wire. */
  datatype Incoming = Carried(frame: Inbound) | Heartbeat(channelId: UInt16)

  type Machines = map<UInt16, Machine>

  /** Why a connection handles no more frames. */
  datatype Halt =
    | NotOpen // a method for a channel that is not open: the reader waits in closeWith for an answer it would have to read itself
    | UnexpectedFrame // content on channel 0: the same
    | ClosedByPeer // the other side closed the connection
    | Panicked // a heartbeat for an open channel: the program crashes

  /**
   * A connection: every channel there has been, and which of them are open; or, after the end, what the
   * channels came to.
   */
  datatype Link = Up(machines: Machines, open: set<UInt16>) | Down(machines: Machines, why: Halt)

  predicate WellFormed(l: Link) {
    l.Up? ==> l.open <= l.machines.Keys && 0 !in l.open
  }

  datatype Fate = Goes | Ends(why: Halt)

  /** Whether a frame ends the connection, given the channels that are open. */
  function FateOf(open: set<UInt16>, f: Incoming): Fate {
    match f
    case Heartbeat(c) => if c in open then Ends(Panicked) else Goes
    case Carried(MethodFrame(c, message)) =>
      if c == 0 then if message == ConnectionClose then Ends(ClosedByPeer) else Goes
      else if c in open || message == ChannelClose || message == ChannelCloseOk then Goes
      else Ends(NotOpen)
    case Carried(ContentFrame(p)) => if p.channel == 0 then Ends(UnexpectedFrame) else Goes
  }

  /** An open channel takes the frame, and is open no longer if that closes it; other frames change no channel. */
  function Delivered(l: Link, f: Incoming): (r: Link)
    requires l.Up? && WellFormed(l)
    ensures r.Up? && WellFormed(r) && r.machines.Keys == l.machines.Keys
  {
    if f.Carried? && f.frame.Channel() in l.open then
      var c := f.frame.Channel();
      Up(l.machines[c := Step(l.machines[c], f.frame)], if f.frame.Closes() then l.open - {c} else l.open)
    else l
  }

  function Handle(l: Link, f: Incoming): (r: Link)
    requires WellFormed(l)
    ensures WellFormed(r) && r.machines.Keys == l.machines.Keys
  {
    if l.Down? then l
    else
      match FateOf(l.open, f)
      case Ends(why) => Down(l.machines, why)
      case Goes => Delivered(l, f)
  }

  function HandleAll(l: Link, fs: seq<Incoming>): (r: Link)
    requires WellFormed(l)
    ensures WellFormed(r) && r.machines.Keys == l.machines.Keys
    decreases |fs|
  {
    if fs == [] then l else HandleAll(Handle(l, fs[0]), fs[1..])
  }

  /** The channels still open after some frames: those that no channel.close was for. */
  function OpenAfter(open: set<UInt16>, fs: seq<Incoming>): set<UInt16> {
    set c | c in open && Carried(MethodFrame(c, ChannelClose)) !in fs
  }

  /** No frame ends the connection at the moment it comes. */
  predicate Harmless(open: set<UInt16>, fs: seq<Incoming>) {
    forall k :: 0 <= k < |fs| ==> FateOf(OpenAfter(open, fs[..k]), fs[k]) == Goes
  }

  /** How many frames are handled before one ends the connection. */
  function Lasting(open: set<UInt16>, fs: seq<Incoming>): (n: nat)
    ensures n <= |fs|
    decreases |fs|
  {
    if fs == [] || FateOf(open, fs[0]).Ends? then 0
    else 1 + Lasting(OpenAfter(open, [fs[0]]), fs[1..])
  }

  lemma OpenAfterFirst(open: set<UInt16>, fs: seq<Incoming>, k: nat)
    requires k < |fs|
    ensures OpenAfter(open, fs[..k + 1]) == OpenAfter(OpenAfter(open, [fs[0]]), fs[1..][..k])
  {
    assert fs[..k + 1] == [fs[0]] + fs[1..][..k];
  }

  lemma DeliveredOpen(l: Link, f: Incoming)
    requires l.Up? && WellFormed(l)
    ensures Delivered(l, f).open == OpenAfter(l.open, [f])
  {}

  /** The connection handles exactly the frames before the first one that ends it, and reports why that did. */
  lemma {:induction false} LastsUntilAFatalFrame(l: Link, fs: seq<Incoming>)
    requires l.Up? && WellFormed(l)
    ensures var n := Lasting(l.open, fs);
            && Harmless(l.open, fs[..n])
            && (n < |fs| ==> FateOf(OpenAfter(l.open, fs[..n]), fs[n]).Ends? && HandleAll(l, fs).Down?
                             && HandleAll(l, fs).why == FateOf(OpenAfter(l.open, fs[..n]), fs[n]).why)
            && (n == |fs| ==> HandleAll(l, fs).Up? && HandleAll(l, fs).open == OpenAfter(l.open, fs))
    decreases |fs|
  {
    hide FateOf, Delivered, OpenAfter, Step;
    NothingClosed(l.open);
    if fs == [] {
    } else if FateOf(l.open, fs[0]).Ends? {
      StaysDown(Handle(l, fs[0]), fs[1..]);
    } else {
      var next, rest := Delivered(l, fs[0]), fs[1..];
      var n := Lasting(l.open, fs);
      DeliveredOpen(l, fs[0]);
      LastsUntilAFatalFrame(next, rest);
      forall k | 0 <= k < n ensures FateOf(OpenAfter(l.open, fs[..n][..k]), fs[..n][k]) == Goes {
        assert fs[..n][..k] == fs[..k];
        if k > 0 {
          OpenAfterFirst(l.open, fs, k - 1);
          assert rest[..n - 1][..k - 1] == rest[..k - 1] && rest[..n - 1][k - 1] == fs[k];
        }
      }
      if n < |fs| {
        OpenAfterFirst(l.open, fs, n - 1);
        assert rest[n - 1] == fs[n];
      } else {
        OpenAfterFirst(l.open, fs, n - 1);
        assert rest[..n - 1] == rest && fs[..n] == fs;
      }
    }
  }

  lemma NothingClosed(open: set<UInt16>)
    ensures OpenAfter(open, []) == open
  {}

  lemma {:induction false} StaysDown(l: Link, fs: seq<Incoming>)
    requires l.Down?
    ensures HandleAll(l, fs) == l
    decreases |fs|
  {
    if fs != [] {
      StaysDown(l, fs[1..]);
    }
  }

  /** A connection survives a stream of frames if and only if each, when it comes, is harmless. */
  lemma {:induction false} SurvivesIfHarmless(l: Link, fs: seq<Incoming>)
    requires l.Up? && WellFormed(l)
    ensures HandleAll(l, fs).Up? <==> Harmless(l.open, fs)
  {
    hide FateOf, OpenAfter, HandleAll;
    LastsUntilAFatalFrame(l, fs);
    var n := Lasting(l.open, fs);
    if n == |fs| {
      assert fs[..n] == fs;
    }
  }

  /** A method for a channel that is not open ends everything: no channel hears anything more. */
  lemma StrayMethodEndsAll(l: Link, channel: UInt16, message: Message, fs: seq<Incoming>)
    requires l.Up? && WellFormed(l) && channel != 0 && channel !in l.open
    requires message != ChannelClose && message != ChannelCloseOk
    ensures HandleAll(l, [Carried(MethodFrame(channel, message))] + fs) == Down(l.machines, NotOpen)
  {
    var f := Carried(MethodFrame(channel, message));
    assert ([f] + fs)[0] == f && ([f] + fs)[1..] == fs;
    StaysDown(Down(l.machines, NotOpen), fs);
  }

  /** So does content on channel 0. */
  lemma ContentOnZeroEndsAll(l: Link, p: Part, fs: seq<Incoming>)
    requires l.Up? && WellFormed(l) && p.channel == 0
    ensures HandleAll(l, [Carried(ContentFrame(p))] + fs) == Down(l.machines, UnexpectedFrame)
  {
    var f := Carried(ContentFrame(p));
    assert ([f] + fs)[0] == f && ([f] + fs)[1..] == fs;
    StaysDown(Down(l.machines, UnexpectedFrame), fs);
  }

  /** Handling a frame first. */
  lemma HandleFirst(l: Link, f: Incoming, fs: seq<Incoming>)
    requires WellFormed(l)
    ensures HandleAll(l, [f] + fs) == HandleAll(Handle(l, f), fs)
  {
    hide Handle;
    assert ([f] + fs)[0] == f && ([f] + fs)[1..] == fs;
  }

  /**
   * Content for a channel that is not open is dropped, and so are heartbeats on such a channel and the
   * end of a channel that has ended already: what follows fares as if they had not come.
   */
  lemma DroppedWithoutATrace(l: Link, channel: UInt16, p: Part, fs: seq<Incoming>)
    requires l.Up? && WellFormed(l) && channel !in l.open
    ensures channel != 0 && p.channel == channel ==> HandleAll(l, [Carried(ContentFrame(p))] + fs) == HandleAll(l, fs)
    ensures HandleAll(l, [Heartbeat(channel)] + fs) == HandleAll(l, fs)
    ensures HandleAll(l, [Carried(MethodFrame(channel, ChannelClose))] + fs) == HandleAll(l, fs)
    ensures HandleAll(l, [Carried(MethodFrame(channel, ChannelCloseOk))] + fs) == HandleAll(l, fs)
  {
    hide HandleAll, Delivered;
    HandleFirst(l, Carried(ContentFrame(p)), fs);
    HandleFirst(l, Heartbeat(channel), fs);
    HandleFirst(l, Carried(MethodFrame(channel, ChannelClose)), fs);
    HandleFirst(l, Carried(MethodFrame(channel, ChannelCloseOk)), fs);
    if p.channel == channel {
      NotForAnyone(l, Carried(ContentFrame(p)));
    }
    NotForAnyone(l, Heartbeat(channel));
    NotForAnyone(l, Carried(MethodFrame(channel, ChannelClose)));
    NotForAnyone(l, Carried(MethodFrame(channel, ChannelCloseOk)));
  }

  /** On channel 0 no method but the close of the connection does anything to it. */
  lemma OtherMethodsOnZero(l: Link, message: Message, fs: seq<Incoming>)
    requires l.Up? && WellFormed(l) && message != ConnectionClose
    ensures HandleAll(l, [Carried(MethodFrame(0, message))] + fs) == HandleAll(l, fs)
  {
    hide HandleAll, Delivered;
    HandleFirst(l, Carried(MethodFrame(0, message)), fs);
    NotForAnyone(l, Carried(MethodFrame(0, message)));
  }

  /** An open channel takes whatever is carried to it; only its own close ends it, and nothing of that ends the connection. */
  lemma OpenChannelTakes(l: Link, f: Inbound, fs: seq<Incoming>)
    requires l.Up? && WellFormed(l) && f.Channel() in l.open
    ensures var c := f.Channel();
            var taken := l.machines[c := Run(l.machines[c], [f])];
            && WellFormed(Up(taken, l.open - if f == MethodFrame(c, ChannelClose) then {c} else {}))
            && HandleAll(l, [Carried(f)] + fs) ==
               HandleAll(Up(taken, l.open - if f == MethodFrame(c, ChannelClose) then {c} else {}), fs)
  {
    var c := f.Channel();
    hide HandleAll, Step;
    HandleFirst(l, Carried(f), fs);
    assert [f][1..] == [] && Run(Step(l.machines[c], f), []) == Step(l.machines[c], f);
    assert l.open - {} == l.open;
  }

  lemma NotForAnyone(l: Link, f: Incoming)
    requires l.Up? && WellFormed(l) && (f.Carried? ==> f.frame.Channel() !in l.open)
    ensures Delivered(l, f) == l
  {
    hide Step;
  }

  /** The peer may close the connection; and a heartbeat for an open channel crashes the program. */
  lemma ClosedOrCrashed(l: Link, channel: UInt16, fs: seq<Incoming>)
    requires l.Up? && WellFormed(l)
    ensures HandleAll(l, [Carried(MethodFrame(0, ConnectionClose))] + fs) == Down(l.machines, ClosedByPeer)
    ensures channel in l.open ==> HandleAll(l, [Heartbeat(channel)] + fs) == Down(l.machines, Panicked)
  {
    HandleFirst(l, Carried(MethodFrame(0, ConnectionClose)), fs);
    HandleFirst(l, Heartbeat(channel), fs);
    StaysDown(Down(l.machines, ClosedByPeer), fs);
    StaysDown(Down(l.machines, Panicked), fs);
    hide HandleAll;
  }

  /** The frames of one channel among those of all. */
  function Of(channel: UInt16, fs: seq<Incoming>): seq<Inbound> {
    if fs == [] then []
    else (if fs[0].Carried? && fs[0].frame.Channel() == channel then [fs[0].frame] else []) + Of(channel, fs[1..])
  }

  /** A channel hears its frames up to the one that closes it. */
  function Heard(fs: seq<Inbound>): seq<Inbound> {
    if fs == [] then [] else [fs[0]] + if fs[0].Closes() then [] else Heard(fs[1..])
  }

  lemma {:induction false} ClosedChannelKeeps(l: Link, fs: seq<Incoming>, channel: UInt16)
    requires WellFormed(l) && channel in l.machines && (l.Up? ==> channel !in l.open)
    ensures HandleAll(l, fs).machines[channel] == l.machines[channel]
    decreases |fs|
  {
    hide Step, FateOf;
    if fs != [] {
      ClosedChannelKeeps(Handle(l, fs[0]), fs[1..], channel);
    }
  }

  /**
   * However frames of other channels come in between, an open channel takes exactly its own, up to the
   * one that closes it or to the frame that ends the connection.
   */
  lemma {:induction false} ChannelsAreIndependent(l: Link, fs: seq<Incoming>, channel: UInt16)
    requires l.Up? && WellFormed(l) && channel in l.open
    ensures HandleAll(l, fs).machines[channel] ==
            Run(l.machines[channel], Heard(Of(channel, fs[..Lasting(l.open, fs)])))
    decreases |fs|
  {
    hide Step, FateOf, OpenAfter;
    if fs == [] {
    } else if FateOf(l.open, fs[0]).Ends? {
      StaysDown(Handle(l, fs[0]), fs[1..]);
    } else {
      var next, f, rest := Delivered(l, fs[0]), fs[0], fs[1..];
      var n := Lasting(l.open, fs);
      DeliveredOpen(l, f);
      var mine := Of(channel, fs[..n]);
      assert fs[..n][0] == f && fs[..n][1..] == rest[..n - 1];
      if f.Carried? && f.frame.Channel() == channel {
        FirstHeard(l.machines[channel], f.frame, Of(channel, rest[..n - 1]));
        if f.frame.Closes() {
          ClosedChannelKeeps(next, rest, channel);
        } else {
          ChannelsAreIndependent(next, rest, channel);
        }
      } else {
        assert mine == Of(channel, rest[..n - 1]);
        ChannelsAreIndependent(next, rest, channel);
      }
    }
  }

  lemma FirstHeard(m: Machine, f: Inbound, rest: seq<Inbound>)
    ensures Run(m, Heard([f] + rest)) == if f.Closes() then Step(m, f) else Run(Step(m, f), Heard(rest))
  {
    hide Step, Heard;
    HeardFirst(f, rest);
    var h := if f.Closes() then [] else Heard(rest);
    assert ([f] + h)[0] == f && ([f] + h)[1..] == h;
    assert Run(Step(m, f), []) == Step(m, f);
  }

  /** Only the last message of a conversation may close the channel. */
  predicate ClosesLast(ds: seq<Delivery>) {
    forall i :: 0 <= i < |ds| - 1 ==> ds[i] != Plain(ChannelClose)
  }

  predicate NoneCloses(fs: seq<Inbound>) {
    forall i :: 0 <= i < |fs| ==> !fs[i].Closes()
  }

  lemma HeardFirst(f: Inbound, rest: seq<Inbound>)
    ensures Heard([f] + rest) == [f] + if f.Closes() then [] else Heard(rest)
  {
    assert ([f] + rest)[0] == f && ([f] + rest)[1..] == rest;
  }

  lemma {:induction false} HeardAppend(a: seq<Inbound>, b: seq<Inbound>)
    requires NoneCloses(a)
    ensures Heard(a + b) == a + Heard(b)
    decreases |a|
  {
    hide Heard;
    if a == [] {
      assert a + b == b;
    } else {
      var f, rest := a[0], a[1..];
      assert !f.Closes() && a + b == [f] + (rest + b);
      HeardFirst(f, rest + b);
      HeardAppend(rest, b);
      assert [f] + (rest + Heard(b)) == a + Heard(b);
    }
  }

  lemma EmittedCloses(channel: UInt16, d: Delivery, frameSize: int)
    requires Sendable(d, frameSize)
    ensures d != Plain(ChannelClose) ==> NoneCloses(Emitted(channel, d, frameSize))
    ensures Heard(Emitted(channel, d, frameSize)) == Emitted(channel, d, frameSize)
  {
    var e := Emitted(channel, d, frameSize);
    if d != Plain(ChannelClose) {
      HeardAppend(e, []);
      assert e + [] == e;
    }
  }

  lemma {:induction false} ConversationHeard(channel: UInt16, ds: seq<Delivery>, frameSize: int)
    requires (forall d :: d in ds ==> Sendable(d, frameSize)) && ClosesLast(ds)
    ensures Heard(EmittedAll(channel, ds, frameSize)) == EmittedAll(channel, ds, frameSize)
    decreases |ds|
  {
    hide Sendable, Emitted;
    if ds != [] {
      var first, rest := Emitted(channel, ds[0], frameSize), EmittedAll(channel, ds[1..], frameSize);
      EmittedCloses(channel, ds[0], frameSize);
      if |ds| > 1 {
        assert ds[0] != Plain(ChannelClose);
        HeardAppend(first, rest);
        ConversationHeard(channel, ds[1..], frameSize);
      } else {
        assert ds[1..] == [] && first + rest == first;
      }
    }
  }

  /**
   * Content over a shared connection: each open channel starts in any state, and the frames its peer
   * sends for its messages arrive mixed in any way with each other and with anything that does not end
   * the connection. Every channel then hands on exactly those messages, whole, in order, once each.
   */
  lemma {:induction false} EveryChannelGetsItsMessages(
    l: Link, fs: seq<Incoming>, sent: map<UInt16, seq<Delivery>>, frameSize: int)
    requires l.Up? && WellFormed(l) && sent.Keys == l.open && Harmless(l.open, fs)
    requires forall c :: c in sent ==> (forall d :: d in sent[c] ==> Sendable(d, frameSize)) && ClosesLast(sent[c])
    requires forall c :: c in sent ==> Of(c, fs) == EmittedAll(c, sent[c], frameSize)
    ensures HandleAll(l, fs).Up?
    ensures forall c :: c in l.open ==> HandleAll(l, fs).machines[c].log == l.machines[c].log + sent[c]
  {
    hide Sendable, EmittedAll, HandleAll, Run, Of, Harmless, Heard, ClosesLast;
    SurvivesIfHarmless(l, fs);
    LastsUntilAFatalFrame(l, fs);
    assert fs[..|fs|] == fs;
    forall c | c in l.open ensures HandleAll(l, fs).machines[c].log == l.machines[c].log + sent[c] {
      ChannelsAreIndependent(l, fs, c);
      ConversationHeard(c, sent[c], frameSize);
      ConversationArrives(l.machines[c], c, sent[c], frameSize);
    }
  }

  /**
   * The same over a connection: whatever frames come, for whatever channels, a channel that was fresh
   * has handed on a message if and only if its frames came, next to each other among those of the channel,
   * before the channel or the connection was closed.
   */
  lemma NothingIsMadeUp(l: Link, fs: seq<Incoming>, channel: UInt16, d: Delivery)
    requires l.Up? && WellFormed(l) && channel in l.open && New(l.machines[channel])
    ensures d in HandleAll(l, fs).machines[channel].log <==>
            exists s :: Lies(Heard(Of(channel, fs[..Lasting(l.open, fs)])), s, d)
  {
    hide Lies, Run, HandleAll, Heard, Of, Lasting;
    ChannelsAreIndependent(l, fs, channel);
    HandedOnIffSent(l.machines[channel], Heard(Of(channel, fs[..Lasting(l.open, fs)])), d);
  }
}
