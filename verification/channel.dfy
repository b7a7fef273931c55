/** Channels of a connection as objects (streadway/amqp channel.go and connection.go). */
module Channels {
  import opened Wire
  import opened Frames
  import opened Content
  import opened Types

  /** The receiving state of a channel; `dispatched` is what it has handed on. */
  class Channel {
    const id: UInt16
    var recv: Stage
    var message: Message
    var properties: Properties
    var size: nat
    var body: Bytes
    var dispatched: seq<Delivery>

    constructor (id: UInt16, message: Message, properties: Properties)
      ensures this.id == id && State() == Machine(Stage.RecvMethod, message, properties, 0, [], [])
    {
      this.id := id;
      recv, this.message, this.properties, size, body, dispatched := Stage.RecvMethod, message, properties, 0, [], [];
    }

    ghost function State(): Machine
      reads this
    {
      Machine(recv, message, properties, size, body, dispatched)
    }

    method Dispatch(d: Delivery)
      modifies `dispatched
      ensures dispatched == old(dispatched) + [d]
    {
      dispatched := dispatched + [d];
    }

    method RecvMethod(f: Inbound)
      requires recv == Stage.RecvMethod || f.MethodFrame?
      modifies this
      ensures State() == Step(old(State()), f)
    {
      match f
      case MethodFrame(_, msg) =>
        if msg.CarriesContent() {
          body := [];
          message := msg;
          recv := Stage.RecvHeader;
        } else {
          Dispatch(Plain(msg));
          recv := Stage.RecvMethod;
        }
      case ContentFrame(_) =>
        recv := Stage.RecvMethod;
    }

    method RecvHeader(f: Inbound)
      requires recv == Stage.RecvHeader
      modifies this
      ensures State() == Step(old(State()), f)
    {
      match f
      case MethodFrame(_, _) =>
        RecvMethod(f);
      case ContentFrame(HeaderFrame(_, _, _, promised, p)) =>
        properties := p;
        size := promised;
        if promised == 0 {
          Dispatch(Full(message, properties, body));
          recv := Stage.RecvMethod;
        } else {
          recv := Stage.RecvContent;
        }
      case ContentFrame(BodyFrame(_, _)) =>
        recv := Stage.RecvMethod;
    }

    method RecvContent(f: Inbound)
      requires recv == Stage.RecvContent
      modifies this
      ensures State() == Step(old(State()), f)
    {
      match f
      case MethodFrame(_, _) =>
        RecvMethod(f);
      case ContentFrame(HeaderFrame(_, _, _, _, _)) =>
        recv := Stage.RecvMethod;
      case ContentFrame(BodyFrame(_, piece)) =>
        body := body + piece;
        if |body| >= size {
          Dispatch(Full(message, properties, body));
          recv := Stage.RecvMethod;
        } else {
          recv := Stage.RecvContent;
        }
    }

    method Recv(f: Inbound)
      modifies this
      ensures State() == Step(old(State()), f)
    {
      if recv == Stage.RecvMethod {
        RecvMethod(f);
      } else if recv == Stage.RecvHeader {
        RecvHeader(f);
      } else {
        RecvContent(f);
      }
    }
  }

  class Connection {
    const frameSize: int
    /** Writing never fails. */
    const reliable: bool
    /** The channels that are open. */
    var channels: map<UInt16, Channel>
    var halted: Option<Halt>
    var sent: seq<Inbound>
    /** All channels there have been, by number. */
    ghost var known: map<UInt16, Channel>

    constructor (frameSize: int, reliable: bool)
      ensures Valid() && LinkState() == Up(map[], {}) && sent == []
      ensures this.frameSize == frameSize && this.reliable == reliable
    {
      this.frameSize, this.reliable := frameSize, reliable;
      channels, known, halted, sent := map[], map[], None, [];
    }

    /** Every number has a channel of its own; number 0 is the connection itself. */
    ghost predicate Valid()
      reads this
    {
      && 0 !in channels && channels.Keys <= known.Keys
      && (forall c :: c in channels ==> channels[c] == known[c])
      && (forall i, j :: i in known && j in known && known[i] == known[j] ==> i == j)
    }

    ghost function States(): (ms: Machines)
      reads this`known, known.Values
      ensures ms.Keys == known.Keys
    {
      map c | c in known :: known[c].State()
    }

    ghost function LinkState(): (l: Link)
      requires Valid()
      reads this, known.Values
      ensures WellFormed(l)
    {
      match halted
      case None => Up(States(), channels.Keys)
      case Some(why) => Down(States(), why)
    }

    /** A new channel under a number not used before. */
    method Register(ch: Channel)
      requires Valid() && halted.None? && ch.id != 0 && ch.id !in known && ch !in known.Values
      modifies this`channels, this`known
      ensures Valid() && halted.None? && channels == old(channels)[ch.id := ch]
      ensures LinkState() == Up(old(States())[ch.id := ch.State()], old(channels.Keys) + {ch.id})
    {
      hide Channel.State;
      ghost var before := States();
      channels, known := channels[ch.id := ch], known[ch.id := ch];
      assert States() == before[ch.id := ch.State()];
    }

    /** Writing a frame may fail at any time, unless the connection is reliable. */
    method Send(f: Inbound) returns (ok: bool)
      modifies `sent
      ensures sent == if ok then old(sent) + [f] else old(sent)
      ensures reliable ==> ok
    {
      ok := *;
      ok := ok || reliable;
      if ok {
        sent := sent + [f];
      }
    }

    /** The answer was written, or nothing was because writing failed. */
    ghost predicate Replied(before: seq<Inbound>, after: seq<Inbound>, answer: seq<Inbound>) {
      after == before + answer || (after == before && !reliable)
    }

    /**
     * The reader handles no frame after this one: it asks for the connection to be closed and waits for
     * an answer that only it could read.
     */
    method CloseWith(why: Halt)
      modifies `halted, `sent
      ensures halted == Some(why)
      ensures Replied(old(sent), sent, [MethodFrame(0, ConnectionClose)])
    {
      var _ := Send(MethodFrame(0, ConnectionClose));
      halted := Some(why);
    }

    /** Frames on channel 0; what its other methods do is not part of this model. */
    method Dispatch0(f: Incoming)
      requires halted.None? && (f.Carried? ==> f.frame.Channel() == 0)
      modifies `halted, `sent
      ensures halted == Ended(FateOf({}, f))
      ensures Replied(old(sent), sent, Answer({}, f))
    {
      match f
      case Heartbeat(_) =>
      case Carried(MethodFrame(_, message)) =>
        if message == ConnectionClose {
          var _ := Send(MethodFrame(0, ConnectionCloseOk));
          halted := Some(ClosedByPeer);
        }
      case Carried(ContentFrame(_)) =>
        CloseWith(UnexpectedFrame);
    }

    /** Frames for a channel that is not open: content is dropped, closing is answered, any other method is an error. */
    method DispatchClosed(f: Incoming)
      requires halted.None?
      requires f.Carried? ==> f.frame.Channel() != 0 && f.frame.Channel() !in channels
      modifies `halted, `sent
      ensures halted == Ended(FateOf({}, f))
      ensures Replied(old(sent), sent, Answer({}, f))
    {
      match f
      case Heartbeat(_) =>
      case Carried(ContentFrame(_)) =>
      case Carried(MethodFrame(c, message)) =>
        if message == ChannelClose {
          var _ := Send(MethodFrame(c, ChannelCloseOk));
        } else if message != ChannelCloseOk {
          CloseWith(NotOpen);
        }
    }

    /** A frame for an open channel. One that is told to close is answered for and forgotten. */
    method DispatchOpen(c: UInt16, f: Inbound)
      requires Valid() && halted.None? && c in channels && f.Channel() == c
      modifies this`channels, this`sent, channels[c]
      ensures Valid() && known == old(known) && channels.Keys == old(channels.Keys) - if f.Closes() then {c} else {}
      ensures States() == old(States())[c := Step(old(States())[c], f)]
      ensures Replied(old(sent), sent, Answer(old(channels.Keys), Carried(f)))
    {
      hide Step, Channel.State;
      ghost var before := States();
      channels[c].Recv(f);
      if f.Closes() {
        channels := channels - {c};
        var _ := Send(MethodFrame(c, ChannelCloseOk));
      }
      assert States() == before[c := Step(before[c], f)];
    }

    /** One frame off the wire. */
    method Demux(f: Incoming)
      requires Valid() && halted.None?
      modifies this`channels, this`halted, this`sent, known.Values
      ensures Valid() && known == old(known) && LinkState() == Handle(old(LinkState()), f)
      ensures Replied(old(sent), sent, Answer(old(channels.Keys), f))
    {
      hide Step, Handle, FateOf, Answer, States;
      HandleMeans(LinkState(), f);
      AnswerElsewhere(channels.Keys, f);
      var c := if f.Carried? then f.frame.Channel() else f.channelId;
      if c == 0 {
        Dispatch0(f);
      } else if c !in channels {
        DispatchClosed(f);
      } else if f.Heartbeat? {
        halted := Some(Panicked);
        assert sent + [] == sent;
      } else {
        DispatchOpen(c, f.frame);
      }
    }

    /** The reader's loop over the frames that come in, until one of them ends the connection. */
    method Reader(fs: seq<Incoming>)
      requires Valid() && halted.None?
      modifies this`channels, this`halted, this`sent, known.Values
      ensures Valid() && LinkState() == HandleAll(old(LinkState()), fs)
      ensures reliable ==> sent == old(sent) + Answers(old(LinkState()), fs)
    {
      hide Handle, HandleAll, States, Answer, Answers;
      var i := 0;
      ghost var all, replies := HandleAll(LinkState(), fs), sent + Answers(LinkState(), fs);
      assert fs[0..] == fs;
      while i < |fs| && halted.None?
        invariant 0 <= i <= |fs| && Valid() && known == old(known)
        invariant all == HandleAll(LinkState(), fs[i..])
        invariant reliable ==> replies == sent + Answers(LinkState(), fs[i..])
      {
        HandleNext(LinkState(), fs, i);
        ghost var l, before, answer := LinkState(), sent, Answer(channels.Keys, fs[i]);
        Demux(fs[i]);
        OneAnswered(before, answer, Answers(Handle(l, fs[i]), fs[i + 1..]));
        i := i + 1;
      }
      if halted.Some? {
        StaysDown(LinkState(), fs[i..]);
        NoMoreAnswers(LinkState(), fs[i..]);
      } else {
        assert fs[i..] == [];
        HandleNothing(LinkState());
      }
      assert sent + [] == sent;
    }

    /**
     * The sending half of a channel, watched for `turns` turns of its loop over the body: with a frame
     * size of eight it goes on forever, with less it crashes, and writing may fail at any frame.
     */
    method SendOpen(channel: UInt16, d: Delivery, turns: nat) returns (outcome: Outcome)
      requires Consistent(d)
      modifies `sent
      ensures outcome == Outcome.WriteFailed ==> old(sent) <= sent < old(sent) + SentIn(turns, channel, d, frameSize)
      ensures outcome != Outcome.WriteFailed ==> sent == old(sent) + SentIn(turns, channel, d, frameSize)
      ensures outcome != Outcome.WriteFailed ==> outcome == OutcomeOf(turns, d, frameSize)
      ensures reliable ==> outcome != Outcome.WriteFailed
      ensures outcome == Outcome.Sent ==> Sendable(d, frameSize) && sent == old(sent) + Emitted(channel, d, frameSize)
    {
      hide Pieces, Turns, Emitted, Sendable, SentIn;
      ghost var start, all := sent, SentIn(turns, channel, d, frameSize);
      BeforeTheLoop(turns, channel, d, frameSize);
      var ok := SendFront(channel, d);
      if !ok {
        StillLonger(start, sent, Front(channel, d), all);
        return Outcome.WriteFailed;
      }
      if d.Plain? {
        SentMeansEmitted(turns, channel, d, frameSize);
        return Outcome.Sent;
      }
      var size, body := frameSize - FRAME_HEADER_SIZE, d.body;
      var i, j := 0, size;
      var turn := 0;
      while turn < turns
        invariant 0 <= turn <= turns && Turns(turn, size, |body|) == Looping(i, j)
        invariant sent == start + SentIn(turn, channel, d, frameSize)
      {
        OneTurn(turn, channel, d, frameSize);
        if i >= |body| {
          Settled(turn + 1, turns, channel, d, frameSize);
          SentMeansEmitted(turns, channel, d, frameSize);
          return Outcome.Sent;
        }
        if j > |body| {
          j := |body|;
        }
        if j < i {
          Settled(turn + 1, turns, channel, d, frameSize);
          return Outcome.Crashed;
        }
        ok := Send(ContentFrame(BodyFrame(channel, body[i..j])));
        if !ok {
          SentSoFar(turn + 1, turns, channel, d, frameSize);
          ProperPrefix(start, SentIn(turn, channel, d, frameSize), SentIn(turn + 1, channel, d, frameSize), all);
          return Outcome.WriteFailed;
        }
        i, j := j, j + size;
        turn := turn + 1;
      }
      return Outcome.StillSending;
    }

    /** The method frame, and the header frame if content follows. */
    method SendFront(channel: UInt16, d: Delivery) returns (ok: bool)
      requires Consistent(d)
      modifies `sent
      ensures ok ==> sent == old(sent) + Front(channel, d)
      ensures reliable ==> ok
      ensures !ok ==> old(sent) <= sent < old(sent) + Front(channel, d)
    {
      ok := Send(MethodFrame(channel, d.message));
      if ok && d.Full? {
        ok := Send(ContentFrame(HeaderFrame(channel, d.message.classId, 0, |d.body|, d.properties)));
      }
    }
  }

  datatype Outcome = Sent | WriteFailed | Crashed | StillSending

  /** How sending stands after that many turns, if every frame could be written. */
  function OutcomeOf(turns: nat, d: Delivery, frameSize: int): Outcome {
    if d.Plain? then Outcome.Sent
    else
      match Turns(turns, frameSize - FRAME_HEADER_SIZE, |d.body|)
      case Done => Outcome.Sent
      case Broken => Outcome.Crashed
      case Looping(_, _) => Outcome.StillSending
  }

  function Ended(fate: Fate): Option<Halt> {
    match fate
    case Goes => None
    case Ends(why) => Some(why)
  }

  /** What is written in reply to a frame, given the channels that are open. */
  function Answer(open: set<UInt16>, f: Incoming): seq<Inbound> {
    match f
    case Heartbeat(_) => []
    case Carried(MethodFrame(c, message)) =>
      if c == 0 then if message == ConnectionClose then [MethodFrame(0, ConnectionCloseOk)] else []
      else if message == ChannelClose then [MethodFrame(c, ChannelCloseOk)]
      else if c in open || message == ChannelCloseOk then []
      else [MethodFrame(0, ConnectionClose)]
    case Carried(ContentFrame(p)) => if p.channel == 0 then [MethodFrame(0, ConnectionClose)] else []
  }

  lemma AnswerElsewhere(open: set<UInt16>, f: Incoming)
    ensures (f.Carried? ==> f.frame.Channel() !in open) ==> Answer(open, f) == Answer({}, f)
    ensures f.Heartbeat? ==> Answer(open, f) == []
  {}

  /** All replies to a stream of frames. */
  function Answers(l: Link, fs: seq<Incoming>): seq<Inbound>
    requires WellFormed(l)
    decreases |fs|
  {
    if fs == [] || l.Down? then [] else Answer(l.open, fs[0]) + Answers(Handle(l, fs[0]), fs[1..])
  }

  /**
   * The peer is asked to close the connection exactly for the frames that are errors; what it closes
   * itself is confirmed; nothing else is answered.
   */
  lemma AnswersFitFates(open: set<UInt16>, f: Incoming)
    requires 0 !in open
    ensures Answer(open, f) == [MethodFrame(0, ConnectionClose)] <==>
              FateOf(open, f) == Ends(NotOpen) || FateOf(open, f) == Ends(UnexpectedFrame)
    ensures Answer(open, f) == [MethodFrame(0, ConnectionCloseOk)] <==> FateOf(open, f) == Ends(ClosedByPeer)
    ensures forall c :: c != 0 ==>
              (Answer(open, f) == [MethodFrame(c, ChannelCloseOk)] <==> f == Carried(MethodFrame(c, ChannelClose)))
    ensures Answer(open, f) == [] <==>
              || FateOf(open, f) == Ends(Panicked)
              || (FateOf(open, f) == Goes && !(f.Carried? && f.frame.Closes() && f.frame.Channel() != 0))
  {}

  /** The branches of demultiplexing: elsewhere than on an open channel a frame fares as if none were open. */
  lemma HandleMeans(l: Link, f: Incoming)
    requires l.Up? && WellFormed(l)
    ensures var c := if f.Carried? then f.frame.Channel() else f.channelId;
            && (c !in l.open ==> Handle(l, f) == match Ended(FateOf({}, f))
                                                 case None => l
                                                 case Some(why) => Down(l.machines, why))
            && (c in l.open && f.Heartbeat? ==> Handle(l, f) == Down(l.machines, Panicked))
            && (c in l.open && f.Carried? ==>
                  Handle(l, f) == Up(l.machines[c := Step(l.machines[c], f.frame)], l.open - if f.frame.Closes() then {c} else {}))
  {
    hide Step;
    var c := if f.Carried? then f.frame.Channel() else f.channelId;
    if c !in l.open {
      assert FateOf(l.open, f) == FateOf({}, f);
    }
  }

  lemma HandleNext(l: Link, fs: seq<Incoming>, i: nat)
    requires WellFormed(l) && i < |fs|
    ensures HandleAll(l, fs[i..]) == HandleAll(Handle(l, fs[i]), fs[i + 1..])
    ensures l.Up? ==> Answers(l, fs[i..]) == Answer(l.open, fs[i]) + Answers(Handle(l, fs[i]), fs[i + 1..])
  {
    assert fs[i..][1..] == fs[i + 1..];
  }

  lemma OneAnswered(before: seq<Inbound>, answer: seq<Inbound>, more: seq<Inbound>)
    ensures before + answer + more == before + (answer + more)
  {}

  lemma HandleNothing(l: Link)
    requires WellFormed(l)
    ensures HandleAll(l, []) == l && Answers(l, []) == []
  {}

  lemma NoMoreAnswers(l: Link, fs: seq<Incoming>)
    requires WellFormed(l) && l.Down?
    ensures Answers(l, fs) == []
  {}

  // ---------------------------------------------------------------- how sending proceeds

  lemma ProperPrefix(start: seq<Inbound>, a: seq<Inbound>, b: seq<Inbound>, all: seq<Inbound>)
    requires a < b <= all
    ensures start <= start + a < start + all
  {
    assert (start + all)[..|start + a|] == start + a;
  }

  /** The next turn: it ends, or it sends one more piece. */
  lemma OneTurn(turn: nat, channel: UInt16, d: Delivery, frameSize: int)
    requires Consistent(d) && d.Full? && Turns(turn, frameSize - FRAME_HEADER_SIZE, |d.body|).Looping?
    ensures var size, body := frameSize - FRAME_HEADER_SIZE, d.body;
            var i, j := Turns(turn, size, |body|).i, Turns(turn, size, |body|).j;
            var j' := if j > |body| then |body| else j;
            && (i >= |body| ==> Turns(turn + 1, size, |body|) == Done)
            && (i < |body| && j' < i ==> Turns(turn + 1, size, |body|) == Broken)
            && (i < |body| && i <= j' ==> Turns(turn + 1, size, |body|) == Looping(j', j' + size))
            && SentIn(turn + 1, channel, d, frameSize) == SentIn(turn, channel, d, frameSize) +
                 if i < |body| && i <= j' then [ContentFrame(BodyFrame(channel, body[i..j']))] else []
  {
    var size, body := frameSize - FRAME_HEADER_SIZE, d.body;
    var i, j := Turns(turn, size, |body|).i, Turns(turn, size, |body|).j;
    var j' := if j > |body| then |body| else j;
    var piece := if i < |body| && i <= j' then [body[i..j']] else [];
    assert Pieces(turn + 1, size, body) == Pieces(turn, size, body) + piece;
    OnePieceMore(Front(channel, d), channel, Pieces(turn, size, body), piece);
  }

  lemma OnePieceMore(front: seq<Inbound>, channel: UInt16, before: seq<Bytes>, piece: seq<Bytes>)
    requires |piece| <= 1
    ensures front + BodyFrames(channel, before + piece) ==
            front + BodyFrames(channel, before) + if piece == [] then [] else [ContentFrame(BodyFrame(channel, piece[0]))]
  {
    BodyFramesAppend(channel, before, piece);
  }

  lemma BodyFramesAppend(channel: UInt16, a: seq<Bytes>, b: seq<Bytes>)
    ensures BodyFrames(channel, a + b) == BodyFrames(channel, a) + BodyFrames(channel, b)
  {}

  /** Once the loop has ended nothing more is sent. */
  lemma {:induction false} Settled(turn: nat, turns: nat, channel: UInt16, d: Delivery, frameSize: int)
    requires Consistent(d) && d.Full? && turn <= turns && !Turns(turn, frameSize - FRAME_HEADER_SIZE, |d.body|).Looping?
    ensures var size := frameSize - FRAME_HEADER_SIZE;
            && Turns(turns, size, |d.body|) == Turns(turn, size, |d.body|)
            && SentIn(turns, channel, d, frameSize) == SentIn(turn, channel, d, frameSize)
    decreases turns
  {
    if turn < turns {
      Settled(turn, turns - 1, channel, d, frameSize);
      var size := frameSize - FRAME_HEADER_SIZE;
      assert Pieces(turns, size, d.body) == Pieces(turns - 1, size, d.body) + [];
    }
  }

  /** More turns only add to what is sent. */
  lemma {:induction false} SentSoFar(turn: nat, turns: nat, channel: UInt16, d: Delivery, frameSize: int)
    requires Consistent(d) && turn <= turns
    ensures SentIn(turn, channel, d, frameSize) <= SentIn(turns, channel, d, frameSize)
    decreases turns
  {
    hide SentIn;
    if turn < turns {
      SentSoFar(turn, turns - 1, channel, d, frameSize);
      OneMoreTurn(turns - 1, channel, d, frameSize);
    }
  }

  lemma OneMoreTurn(turn: nat, channel: UInt16, d: Delivery, frameSize: int)
    requires Consistent(d)
    ensures SentIn(turn, channel, d, frameSize) <= SentIn(turn + 1, channel, d, frameSize)
  {
    if d.Full? {
      hide SentIn, Turns;
      if Turns(turn, frameSize - FRAME_HEADER_SIZE, |d.body|).Looping? {
        OneTurn(turn, channel, d, frameSize);
      } else {
        Settled(turn, turn + 1, channel, d, frameSize);
      }
    }
  }

  /** What is there before the loop begins. */
  lemma BeforeTheLoop(turns: nat, channel: UInt16, d: Delivery, frameSize: int)
    requires Consistent(d)
    ensures SentIn(0, channel, d, frameSize) == Front(channel, d) <= SentIn(turns, channel, d, frameSize)
    ensures d.Full? ==> Turns(0, frameSize - FRAME_HEADER_SIZE, |d.body|) == Looping(0, frameSize - FRAME_HEADER_SIZE)
    ensures d.Plain? ==> SentIn(turns, channel, d, frameSize) == Front(channel, d)
  {
    assert Front(channel, d) + [] == Front(channel, d);
    SentSoFar(0, turns, channel, d, frameSize);
  }

  lemma StillLonger(start: seq<Inbound>, sent: seq<Inbound>, front: seq<Inbound>, all: seq<Inbound>)
    requires start <= sent < start + front && front <= all
    ensures sent < start + all
  {
    assert (start + all)[..|start + front|] == start + front;
  }
}
