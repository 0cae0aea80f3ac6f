/**
 * A session's send, receive and close operations (src/session/mod.rs). Each async function is a future that
 * a poll drives forward; the answers its await points get during one poll are a parameter.
 */
module Sessions {
  import opened Wrappers
  import opened Octets
  import opened Segments

  datatype Poll<+T> = Pending | Ready(value: T)

  predicate Completed<T>(poll: Poll<Result<T>>) {
    poll.Ready? && poll.value.Ok?
  }

  /**
   * How an await point resolves: `Refused` is an error from the WebRTC library, which only the channel send and
   * the peer connection close can report. A poll that runs out of answers is left pending.
   */
  datatype Answer = Granted | Refused

  datatype Resource = ReliableChannel | UnreliableChannel | PeerConnection

  /**
   * What sends and closes see of a session: the closed flag, which channels are attached, the packets accepted by
   * the reliable channel, and what has been told to close.
   */
  datatype Endpoint = Endpoint(closed: bool, attached: bool, unreliable: bool, wire: seq<Bytes>, ended: seq<Resource>)

  // ----- Sending -----

  /** Where a `Session::send` call is waiting. */
  datatype SendFuture =
    | CheckingClosed(data: Bytes)
    | LockingChannel(data: Bytes)
    | Pushing(rest: seq<MessageSegment>)
  {
    /** Only an empty message has an empty segment. */
    ghost predicate Valid() {
      Pushing? ==> rest != [] && (rest == [MessageSegment(0, [])] || forall s :: s in rest ==> s.data != [])
    }

    predicate HasData()
      requires Pushing? ==> rest != []
    {
      if Pushing? then rest[0].data != [] else data != []
    }

    /** False for a message that the splitter is going to refuse. */
    predicate Deliverable() {
      Pushing? || Splittable(data)
    }

    /** The packets this send has yet to push. */
    function Owed(): seq<Bytes> {
      if Pushing? then EncodeAll(rest) else if Splittable(data) then EncodeAll(Chunks(data)) else []
    }
  }

  lemma SplitKeepsValid(data: Bytes)
    requires Splittable(data)
    ensures Pushing(Chunks(data)).Valid()
  {
    SplitShape(data);
    if data == [] {
      EmptySplit();
    } else {
      var segments := Chunks(data);
      forall s | s in segments
        ensures s.data != []
      {
        var i :| 0 <= i < |segments| && segments[i] == s;
      }
    }
  }

  lemma EmptySplit()
    ensures Chunks([]) == [MessageSegment(0, [])]
  {
    assert Chunks([])[0] == MessageSegment(0, []);
  }

  datatype SendPoll = SendPoll(poll: Poll<Result<()>>, future: SendFuture, session: Endpoint)

  /** One poll of a send. */
  function RunSend(f: SendFuture, s: Endpoint, env: seq<Answer>): (r: SendPoll)
    requires f.Valid()
    ensures r.poll.Pending? ==> r.future.Valid()
    decreases |env|
  {
    if env == [] then SendPoll(Pending, f, s)
    else match f
      case CheckingClosed(data) =>
        if s.closed then SendPoll(Ready(Err(ConnectionClosed)), f, s)
        else RunSend(LockingChannel(data), s, env[1..])
      case LockingChannel(data) =>
        if !s.attached then SendPoll(Ready(Err(DataChannel)), f, s)
        else if !Splittable(data) then SendPoll(Ready(Err(MessageTooLarge(|data|))), f, s)
        else SplitKeepsValid(data); RunSend(Pushing(Chunks(data)), s, env[1..])
      case Pushing(rest) =>
        if env[0].Refused? then SendPoll(Ready(Err(DataChannel)), f, s)
        else
          var s' := s.(wire := s.wire + [Encode(rest[0])]);
          if |rest| == 1 then SendPoll(Ready(Ok(())), f, s') else RunSend(Pushing(rest[1..]), s', env[1..])
  }

  lemma EncodeFirst(segments: seq<MessageSegment>)
    requires segments != []
    ensures EncodeAll(segments) == [Encode(segments[0])] + EncodeAll(segments[1..])
  {
  }

  /**
   * A poll moves packets from what is owed to the wire, in order, and nothing else: a pending or successful poll
   * keeps wire ++ owed, a failing one has pushed a proper prefix of what was owed or had a message too large.
   */
  lemma {:induction false} SendLedger(f: SendFuture, s: Endpoint, env: seq<Answer>)
    requires f.Valid()
    ensures var SendPoll(poll, f', s') := RunSend(f, s, env);
            && s' == s.(wire := s'.wire)
            && match poll
               case Pending => s'.wire + f'.Owed() == s.wire + f.Owed() && f'.Deliverable() == f.Deliverable()
                               && (!f.Deliverable() ==> !f'.Pushing?)
                               && (!f'.Pushing? ==> !f.Pushing? && f'.data == f.data)
               case Ready(Ok(_)) => s'.wire == s.wire + f.Owed() && f.Deliverable()
               case Ready(Err(_)) => s.wire <= s'.wire <= s.wire + f.Owed()
                                     && (f.Deliverable() ==> s'.wire != s.wire + f.Owed())
    decreases |env|
  {
    if env != [] {
      match f
      case CheckingClosed(data) =>
        SendLedger(LockingChannel(data), s, env[1..]);
      case LockingChannel(data) =>
        if Splittable(data) {
          SplitKeepsValid(data);
          SendLedger(Pushing(Chunks(data)), s, env[1..]);
        }
      case Pushing(rest) =>
        var pushed := s.wire + [Encode(rest[0])];
        EncodeFirst(rest);
        ConcatAssoc(s.wire, [Encode(rest[0])], EncodeAll(rest[1..]));
        if |rest| > 1 && env[0].Granted? {
          SendLedger(Pushing(rest[1..]), s.(wire := pushed), env[1..]);
        }
    }
  }

  /** How many await points are granted before the first refusal, or before the answers run out. */
  function Grants(env: seq<Answer>): (n: nat)
    ensures n <= |env|
  {
    if env == [] || env[0].Refused? then 0 else 1 + Grants(env[1..])
  }

  function Min(x: nat, y: nat): nat {
    if x < y then x else y
  }

  lemma PushStep(rest: seq<MessageSegment>, s: Endpoint, env: seq<Answer>)
    requires Pushing(rest).Valid() && env != [] && env[0].Granted? && |rest| > 1
    ensures Pushing(rest[1..]).Valid()
    ensures RunSend(Pushing(rest), s, env)
            == RunSend(Pushing(rest[1..]), s.(wire := s.wire + [Encode(rest[0])]), env[1..])
  {
  }

  /** What a poll does that pushes the first `k` of the owed packets. */
  ghost predicate Pushes(r: SendPoll, rest: seq<MessageSegment>, s: Endpoint, env: seq<Answer>, k: nat)
    requires k <= |rest|
  {
    && r.session == s.(wire := s.wire + EncodeAll(rest[..k]))
    && r.poll == (if k == |rest| then Ready(Ok(())) else if k < |env| then Ready(Err(DataChannel)) else Pending)
    && (r.poll.Pending? ==> r.future == Pushing(rest[k..]))
  }

  lemma PushesOneMore(r: SendPoll, rest: seq<MessageSegment>, s: Endpoint, env: seq<Answer>, k: nat)
    requires 0 < k <= |rest| && env != []
    requires Pushes(r, rest[1..], s.(wire := s.wire + [Encode(rest[0])]), env[1..], k - 1)
    ensures Pushes(r, rest, s, env, k)
  {
    EncodeFirstOf(rest, k);
    ConcatAssoc(s.wire, [Encode(rest[0])], EncodeAll(rest[1..k]));
    assert rest[1..][..k - 1] == rest[1..k] && rest[1..][k - 1..] == rest[k..];
  }

  /**
   * One granted answer, one packet: a poll pushes exactly as many packets as are granted. It succeeds if those were
   * all, fails if a refusal came first, and otherwise waits with the rest.
   */
  lemma {:induction false} PushesExactly(rest: seq<MessageSegment>, s: Endpoint, env: seq<Answer>)
    requires Pushing(rest).Valid()
    ensures Pushes(RunSend(Pushing(rest), s, env), rest, s, env, Min(Grants(env), |rest|))
    decreases |env|
  {
    if env == [] || env[0].Refused? {
      PushesNone(rest, s, env);
    } else if |rest| > 1 {
      PushStep(rest, s, env);
      PushesExactly(rest[1..], s.(wire := s.wire + [Encode(rest[0])]), env[1..]);
      PushesOneMore(RunSend(Pushing(rest), s, env), rest, s, env, Min(Grants(env), |rest|));
    } else {
      PushesLast(rest, s, env);
    }
  }

  lemma PushesNone(rest: seq<MessageSegment>, s: Endpoint, env: seq<Answer>)
    requires Pushing(rest).Valid() && (env == [] || env[0].Refused?)
    ensures Pushes(RunSend(Pushing(rest), s, env), rest, s, env, 0)
  {
    assert EncodeAll(rest[..0]) == [] && s.wire + [] == s.wire && rest[0..] == rest;
  }

  lemma PushesLast(rest: seq<MessageSegment>, s: Endpoint, env: seq<Answer>)
    requires Pushing(rest).Valid() && |rest| == 1 && env != [] && env[0].Granted?
    ensures Pushes(RunSend(Pushing(rest), s, env), rest, s, env, 1)
  {
    assert rest[..1] == rest && EncodeAll(rest) == [Encode(rest[0])];
  }

  lemma EncodeFirstOf(segments: seq<MessageSegment>, k: nat)
    requires 0 < k <= |segments|
    ensures EncodeAll(segments[..k]) == [Encode(segments[0])] + EncodeAll(segments[1..k])
  {
    EncodeFirst(segments[..k]);
    assert segments[..k][1..] == segments[1..k];
  }

  /**
   * What a send answers in a poll that grants its first two await points: a closed session, a missing channel and
   * an oversized message are refused with nothing pushed; otherwise the packets go out as they are granted.
   */
  lemma SendAnswers(data: Bytes, s: Endpoint, env: seq<Answer>)
    requires |env| >= 2
    ensures var r := RunSend(CheckingClosed(data), s, env);
            if s.closed then r.poll == Ready(Err(ConnectionClosed)) && r.session == s
            else if !s.attached then r.poll == Ready(Err(DataChannel)) && r.session == s
            else if !Splittable(data) then r.poll == Ready(Err(MessageTooLarge(|data|))) && r.session == s
            else
              var k := Min(Grants(env[2..]), SegmentCount(|data|));
              && r.session.wire == s.wire + EncodeAll(Chunks(data)[..k])
              && (Completed(r.poll) <==> k == SegmentCount(|data|))
              && (r.poll.Pending? <==> k == |env| - 2 < SegmentCount(|data|))
  {
    assert env[1..][1..] == env[2..];
    if !s.closed && s.attached && Splittable(data) {
      SplitKeepsValid(data);
      PushesExactly(Chunks(data), s, env[2..]);
      assert RunSend(LockingChannel(data), s, env[1..]) == RunSend(Pushing(Chunks(data)), s, env[2..]);
    }
  }

  /** A refusal comes among the first `n` answers. */
  predicate RefusesWithin(env: seq<Answer>, n: nat) {
    Grants(env) < |env| && Grants(env) < n
  }

  /** When one poll of a send reports an error, told before the poll. */
  predicate Fails(f: SendFuture, s: Endpoint, env: seq<Answer>)
    decreases |env|
  {
    match f
    case CheckingClosed(data) => env != [] && (s.closed || Fails(LockingChannel(data), s, env[1..]))
    case LockingChannel(data) =>
      env != [] && (!s.attached || !Splittable(data) || RefusesWithin(env[1..], SegmentCount(|data|)))
    case Pushing(rest) => RefusesWithin(env, |rest|)
  }

  /** When one poll of a send succeeds, told before the poll. */
  predicate Finishes(f: SendFuture, s: Endpoint, env: seq<Answer>)
    decreases |env|
  {
    match f
    case CheckingClosed(data) => env != [] && !s.closed && Finishes(LockingChannel(data), s, env[1..])
    case LockingChannel(data) =>
      env != [] && s.attached && Splittable(data) && Grants(env[1..]) >= SegmentCount(|data|)
    case Pushing(rest) => Grants(env) >= |rest|
  }

  predicate Failed<T>(poll: Poll<Result<T>>) {
    poll.Ready? && poll.value.Err?
  }

  /** These are exactly the polls that fail and that succeed; all others are left pending. */
  lemma {:induction false} SendOutcomeIff(f: SendFuture, s: Endpoint, env: seq<Answer>)
    requires f.Valid()
    ensures Failed(RunSend(f, s, env).poll) <==> Fails(f, s, env)
    ensures Completed(RunSend(f, s, env).poll) <==> Finishes(f, s, env)
    decreases |env|
  {
    match f
    case CheckingClosed(data) =>
      if env != [] && !s.closed {
        SendOutcomeIff(LockingChannel(data), s, env[1..]);
      }
    case LockingChannel(data) =>
      if env != [] && s.attached && Splittable(data) {
        SplitKeepsValid(data);
        PushesExactly(Chunks(data), s, env[1..]);
      }
    case Pushing(rest) => PushesExactly(rest, s, env);
  }

  /** The error of a send that fails. */
  function SendError(f: SendFuture, s: Endpoint): Error {
    if f.CheckingClosed? && s.closed then ConnectionClosed
    else if !f.Pushing? && s.attached && !Splittable(f.data) then MessageTooLarge(|f.data|)
    else DataChannel
  }

  lemma {:induction false} SendErrorIs(f: SendFuture, s: Endpoint, env: seq<Answer>)
    requires f.Valid() && Fails(f, s, env)
    ensures RunSend(f, s, env).poll == Ready(Err(SendError(f, s)))
    decreases |env|
  {
    match f
    case CheckingClosed(data) =>
      if !s.closed {
        SendErrorIs(LockingChannel(data), s, env[1..]);
      }
    case LockingChannel(data) =>
      if s.attached && Splittable(data) {
        SplitKeepsValid(data);
        PushesExactly(Chunks(data), s, env[1..]);
      }
    case Pushing(rest) => PushesExactly(rest, s, env);
  }

  // ----- Closing -----

  /** Where a `Session::close` call is waiting. */
  datatype CloseFuture = MarkingClosed | ClosingReliable | ClosingUnreliable | ClosingPeer

  datatype ClosePoll = ClosePoll(poll: Poll<Result<()>>, future: CloseFuture, session: Endpoint)

  function OneIf<T>(b: bool, x: T): seq<T> {
    if b then [x] else []
  }

  /** One poll of a close: sets the flag once, then closes both channels and the peer connection. */
  function RunClose(f: CloseFuture, s: Endpoint, env: seq<Answer>): ClosePoll
    decreases |env|
  {
    if env == [] then ClosePoll(Pending, f, s)
    else match f
      case MarkingClosed =>
        if s.closed then ClosePoll(Ready(Ok(())), f, s)
        else RunClose(ClosingReliable, s.(closed := true), env[1..])
      case ClosingReliable =>
        RunClose(ClosingUnreliable, s.(ended := s.ended + OneIf(s.attached, ReliableChannel)), env[1..])
      case ClosingUnreliable =>
        RunClose(ClosingPeer, s.(ended := s.ended + OneIf(s.unreliable, UnreliableChannel)), env[1..])
      case ClosingPeer =>
        ClosePoll(Ready(if env[0].Refused? then Err(WebRtc) else Ok(())), f, s.(ended := s.ended + [PeerConnection]))
  }

  /** What a close has yet to shut down; nothing if the session was closed before. */
  function ToEnd(f: CloseFuture, s: Endpoint): seq<Resource> {
    match f
    case MarkingClosed =>
      if s.closed then []
      else OneIf(s.attached, ReliableChannel) + OneIf(s.unreliable, UnreliableChannel) + [PeerConnection]
    case ClosingReliable =>
      OneIf(s.attached, ReliableChannel) + OneIf(s.unreliable, UnreliableChannel) + [PeerConnection]
    case ClosingUnreliable => OneIf(s.unreliable, UnreliableChannel) + [PeerConnection]
    case ClosingPeer => [PeerConnection]
  }

  /**
   * However it is polled, a close shuts down every attached channel and the peer connection once, in that order,
   * leaves a session alone that is closed already, and never touches what was sent.
   */
  lemma {:induction false} CloseLedger(f: CloseFuture, s: Endpoint, env: seq<Answer>)
    ensures var ClosePoll(poll, f', s') := RunClose(f, s, env);
            && s' == s.(closed := s'.closed, ended := s'.ended) && (s.closed ==> s'.closed)
            && (f == MarkingClosed && poll.Ready? ==> s'.closed)
            && (f != MarkingClosed ==> f' != MarkingClosed)
            && (f == MarkingClosed && f' != MarkingClosed ==> s'.closed)
            && (s'.closed && !s.closed ==> f == MarkingClosed && f' != MarkingClosed)
            && s.ended + ToEnd(f, s) == s'.ended + if poll.Pending? then ToEnd(f', s') else []
    decreases |env|
  {
    if env != [] {
      match f
      case MarkingClosed => CloseLedger(ClosingReliable, s.(closed := true), env[1..]);
      case ClosingReliable =>
        var next := s.(ended := s.ended + OneIf(s.attached, ReliableChannel));
        CloseLedger(ClosingUnreliable, next, env[1..]);
        ConcatAssoc(s.ended, OneIf(s.attached, ReliableChannel), ToEnd(ClosingUnreliable, next));
        ConcatAssoc(OneIf(s.attached, ReliableChannel), OneIf(s.unreliable, UnreliableChannel), [PeerConnection]);
      case ClosingUnreliable =>
        var next := s.(ended := s.ended + OneIf(s.unreliable, UnreliableChannel));
        CloseLedger(ClosingPeer, next, env[1..]);
        ConcatAssoc(s.ended, OneIf(s.unreliable, UnreliableChannel), [PeerConnection]);
      case ClosingPeer =>
    }
  }

  /** How many answers a close takes before the peer connection's own. */
  function BeforePeer(f: CloseFuture): nat {
    match f
    case MarkingClosed => 3
    case ClosingReliable => 2
    case ClosingUnreliable => 1
    case ClosingPeer => 0
  }

  /** What a poll of a close answers, told before the poll: a second close is done at once, any other is the peer's. */
  function CloseAnswer(f: CloseFuture, closed: bool, env: seq<Answer>): Poll<Result<()>> {
    if f == MarkingClosed && closed && env != [] then Ready(Ok(()))
    else if |env| <= BeforePeer(f) then Pending
    else if env[BeforePeer(f)] == Refused then Ready(Err(WebRtc))
    else Ready(Ok(()))
  }

  lemma {:induction false} CloseOutcomeIff(f: CloseFuture, s: Endpoint, env: seq<Answer>)
    ensures RunClose(f, s, env).poll == CloseAnswer(f, s.closed, env)
    decreases |env|
  {
    if env != [] {
      match f
      case MarkingClosed =>
        if !s.closed {
          CloseOutcomeIff(ClosingReliable, s.(closed := true), env[1..]);
        }
      case ClosingReliable =>
        CloseOutcomeIff(ClosingUnreliable, s.(ended := s.ended + OneIf(s.attached, ReliableChannel)), env[1..]);
      case ClosingUnreliable =>
        CloseOutcomeIff(ClosingPeer, s.(ended := s.ended + OneIf(s.unreliable, UnreliableChannel)), env[1..]);
      case ClosingPeer =>
    }
  }

  // ----- Receiving -----

  /** The on_message pipeline for one packet: the next accumulator and the message to queue, if one is complete. */
  function Ingest(acc: Accumulator, packet: Bytes): (Accumulator, Option<Bytes>) {
    match Decode(packet)
    case Err(_) => (acc, None)
    case Ok(segment) =>
      var (next, outcome) := Add(acc, segment);
      (next, if outcome.Ok? then outcome.value else None)
  }

  /** Where a `Session::recv` call is waiting. */
  datatype RecvFuture = CheckingOpen | Receiving

  /** `Session`: the fields that the stream operations use. */
  class Session {
    var closed: bool
    var reliable: bool
    var unreliable: bool
    var wire: seq<Bytes>
    var ended: seq<Resource>
    const messageBuffer: Message
    var packetQueue: seq<Bytes>
    const capacity: nat

    ghost function View(): Endpoint
      reads this
    {
      Endpoint(closed, reliable, unreliable, wire, ended)
    }

    constructor WithCapacity(capacity: nat)
      ensures View() == Endpoint(false, false, false, [], []) && packetQueue == [] && this.capacity == capacity
      ensures fresh(messageBuffer) && messageBuffer.State() == FRESH
    {
      closed, reliable, unreliable := false, false, false;
      wire, ended, packetQueue := [], [], [];
      this.capacity := capacity;
      messageBuffer := new Message();
    }

    /** Stores the reliable channel; its callbacks are `OnMessage`, then `PollEnqueue`. */
    method SetReliableChannel()
      modifies this`reliable
      ensures View() == old(View()).(attached := true)
    {
      reliable := true;
    }

    method SetUnreliableChannel()
      modifies this`unreliable
      ensures View() == old(View()).(unreliable := true)
    {
      unreliable := true;
    }

    /** Drives one `send` call; each turn of the loop passes one await point. */
    method PollSend(future: SendFuture, env: seq<Answer>) returns (poll: Poll<Result<()>>, next: SendFuture)
      requires future.Valid()
      modifies this`wire
      ensures SendPoll(poll, next, View()) == RunSend(future, old(View()), env)
    {
      next := future;
      var i := 0;
      while i < |env|
        invariant i <= |env| && next.Valid()
        invariant RunSend(next, View(), env[i..]) == RunSend(future, old(View()), env)
      {
        ghost var left := env[i..];
        assert left[0] == env[i] && left[1..] == env[i + 1..];
        match next {
          case CheckingClosed(data) =>
            if closed {
              return Ready(Err(ConnectionClosed)), next;
            }
            next := LockingChannel(data);
          case LockingChannel(data) =>
            if !reliable {
              return Ready(Err(DataChannel)), next;
            }
            var split := SplitIntoSegments(data);
            if split.Err? {
              return Ready(Err(split.error)), next;
            }
            SplitKeepsValid(data);
            next := Pushing(split.value);
          case Pushing(rest) =>
            if env[i].Refused? {
              return Ready(Err(DataChannel)), next;
            }
            wire := wire + [Encode(rest[0])];
            if |rest| == 1 {
              return Ready(Ok(())), next;
            }
            next := Pushing(rest[1..]);
        }
        i := i + 1;
      }
      return Pending, next;
    }

    /** Drives one `close` call. */
    method PollClose(future: CloseFuture, env: seq<Answer>) returns (poll: Poll<Result<()>>, next: CloseFuture)
      modifies this`closed, this`ended
      ensures ClosePoll(poll, next, View()) == RunClose(future, old(View()), env)
    {
      next := future;
      var i := 0;
      while i < |env|
        invariant i <= |env|
        invariant RunClose(next, View(), env[i..]) == RunClose(future, old(View()), env)
      {
        ghost var left := env[i..];
        assert left[0] == env[i] && left[1..] == env[i + 1..];
        match next {
          case MarkingClosed =>
            if closed {
              return Ready(Ok(())), next;
            }
            closed := true;
            next := ClosingReliable;
          case ClosingReliable =>
            ended := ended + (if reliable then [ReliableChannel] else []);
            next := ClosingUnreliable;
          case ClosingUnreliable =>
            ended := ended + (if unreliable then [UnreliableChannel] else []);
            next := ClosingPeer;
          case ClosingPeer =>
            ended := ended + [PeerConnection];
            return Ready(if env[i].Refused? then Err(WebRtc) else Ok(())), next;
        }
        i := i + 1;
      }
      return Pending, next;
    }

    /** The on_message callback up to its channel send. */
    method OnMessage(packet: Bytes) returns (complete: Option<Bytes>)
      modifies messageBuffer
      ensures (messageBuffer.State(), complete) == Ingest(old(messageBuffer.State()), packet)
    {
      var decoded := Decode(packet);
      if decoded.Err? {
        return None;
      }
      var outcome := messageBuffer.AddSegment(decoded.value);
      return if outcome.Ok? then outcome.value else None;
    }

    /** The callback's `tx.send`: waits while the bounded queue is full. */
    method PollEnqueue(message: Bytes) returns (poll: Poll<()>)
      modifies this`packetQueue
      ensures poll.Ready? <==> |old(packetQueue)| < capacity
      ensures packetQueue == if poll.Ready? then old(packetQueue) + [message] else old(packetQueue)
    {
      if |packetQueue| >= capacity {
        return Pending;
      }
      packetQueue := packetQueue + [message];
      return Ready(());
    }

    /**
     * One poll of `recv`. A call that starts on a closed session answers None; one that is already waiting
     * is served from the queue whether or not the session closes meanwhile.
     */
    method PollRecv(future: RecvFuture) returns (poll: Poll<Result<Option<Bytes>>>, next: RecvFuture)
      modifies this`packetQueue
      ensures future == CheckingOpen && closed ==> poll == Ready(Ok(None)) && packetQueue == old(packetQueue)
      ensures !(future == CheckingOpen && closed) ==>
                if old(packetQueue) == [] then poll == Pending && next == Receiving && packetQueue == []
                else poll == Ready(Ok(Some(old(packetQueue)[0]))) && packetQueue == old(packetQueue)[1..]
    {
      next := future;
      if next == CheckingOpen {
        if closed {
          return Ready(Ok(None)), next;
        }
        next := Receiving;
      }
      if packetQueue == [] {
        return Pending, next;
      }
      var message := packetQueue[0];
      packetQueue := packetQueue[1..];
      return Ready(Ok(Some(message))), next;
    }
  }
}
