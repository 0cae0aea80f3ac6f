/**
 * `NethernetStream` as an AsyncWrite, and `SessionStream`, the source of its reader (src/transport/stream.rs).
 */
module Streams {
  import opened Wrappers
  import opened Octets
  import opened Segments
  import opened Sessions

  /** The session and the two future slots of a stream. */
  datatype Writer = Writer(session: Endpoint, sending: Option<SendFuture>, closing: Option<CloseFuture>) {

    ghost predicate Valid() {
      sending.Some? ==> sending.value.Valid()
    }

    /** Packets on the wire, then those the in-flight send still owes it. */
    function Committed(): seq<Bytes> {
      session.wire + if sending.Some? then sending.value.Owed() else []
    }
  }

  // ----- The poll methods as functions -----

  datatype FlushReply = FlushReply(writer: Writer, poll: Poll<Result<()>>)

  /** `poll_flush`; also the first step of the other two polls. */
  function RunFlush(w: Writer, env: seq<Answer>): (r: FlushReply)
    requires w.Valid()
    ensures r.writer.Valid() && (r.poll.Ready? ==> r.writer.sending == None)
  {
    match w.sending
    case None => FlushReply(w, Ready(Ok(())))
    case Some(f) =>
      var SendPoll(poll, f', s) := RunSend(f, w.session, env);
      FlushReply(w.(session := s, sending := if poll.Pending? then Some(f') else None), poll)
  }

  datatype WriteReply = WriteReply(writer: Writer, poll: Poll<Result<nat>>)

  /** The second half of `poll_write`: the slot is empty and the new send is polled at once. */
  function RunStart(w: Writer, buf: Bytes, env: seq<Answer>): (r: WriteReply)
    requires w.Valid() && w.sending == None
    ensures r.writer.Valid()
  {
    var SendPoll(poll, f, s) := RunSend(CheckingClosed(buf), w.session, env);
    match poll
    case Pending => WriteReply(w.(session := s, sending := Some(f)), Ready(Ok(|buf|)))
    case Ready(Ok(_)) => WriteReply(w.(session := s), Ready(Ok(|buf|)))
    case Ready(Err(e)) => WriteReply(w.(session := s), Ready(Err(e)))
  }

  function RunWrite(w: Writer, buf: Bytes, envOld: seq<Answer>, envNew: seq<Answer>): (r: WriteReply)
    requires w.Valid()
    ensures r.writer.Valid()
  {
    var FlushReply(w', poll) := RunFlush(w, envOld);
    match poll
    case Pending => WriteReply(w', Pending)
    case Ready(Err(e)) => WriteReply(w', Ready(Err(e)))
    case Ready(Ok(_)) => RunStart(w', buf, envNew)
  }

  function RunShutdown(w: Writer, envFlush: seq<Answer>, envClose: seq<Answer>): (r: FlushReply)
    requires w.Valid()
    ensures r.writer.Valid()
  {
    var FlushReply(w', poll) := RunFlush(w, envFlush);
    if !Completed(poll) then FlushReply(w', poll)
    else
      var f := if w'.closing.Some? then w'.closing.value else MarkingClosed;
      var ClosePoll(poll', f', s) := RunClose(f, w'.session, envClose);
      FlushReply(w'.(session := s, closing := if poll'.Pending? then Some(f') else None), poll')
  }

  /** `NethernetStream`. A future is taken out of its slot before it is polled and put back while pending. */
  class NethernetStream {
    const session: Session
    var sendFuture: Option<SendFuture>
    var shutdownFuture: Option<CloseFuture>

    ghost function View(): Writer
      reads this, session
    {
      Writer(session.View(), sendFuture, shutdownFuture)
    }

    constructor FromSession(session: Session)
      ensures this.session == session && View() == Writer(session.View(), None, None)
    {
      this.session := session;
      sendFuture, shutdownFuture := None, None;
    }

    method PollFlush(env: seq<Answer>) returns (poll: Poll<Result<()>>)
      requires View().Valid()
      modifies this`sendFuture, session`wire
      ensures FlushReply(View(), poll) == RunFlush(old(View()), env)
      ensures Completed(poll) ==> sendFuture == None && session.wire == old(View()).Committed()
      ensures poll.Pending? ==> View().Committed() == old(View()).Committed()
    {
      FlushLedger(View(), env);
      if sendFuture.None? {
        return Ready(Ok(()));
      }
      var future := sendFuture.value;
      sendFuture := None;
      poll, future := session.PollSend(future, env);
      if poll.Pending? {
        sendFuture := Some(future);
      }
    }

    method PollWrite(buf: Bytes, envOld: seq<Answer>, envNew: seq<Answer>) returns (poll: Poll<Result<nat>>)
      requires View().Valid()
      modifies this`sendFuture, session`wire
      ensures WriteReply(View(), poll) == RunWrite(old(View()), buf, envOld, envNew)
      ensures Completed(poll) ==>
                poll.value.value == |buf| && View().Committed() == old(View()).Committed() + PacketsOf(buf)
      ensures poll.Pending? ==> View().Committed() == old(View()).Committed()
    {
      WriteLedger(View(), buf, envOld, envNew);
      if sendFuture.Some? {
        var previous := sendFuture.value;
        sendFuture := None;
        var sent;
        sent, previous := session.PollSend(previous, envOld);
        if sent.Pending? {
          sendFuture := Some(previous);
          return Pending;
        }
        if sent.value.Err? {
          return Ready(Err(sent.value.error));
        }
      }
      var started, future := session.PollSend(CheckingClosed(buf), envNew);
      if started.Pending? {
        sendFuture := Some(future);
      } else if started.value.Err? {
        return Ready(Err(started.value.error));
      }
      return Ready(Ok(|buf|));
    }

    method PollShutdown(envFlush: seq<Answer>, envClose: seq<Answer>) returns (poll: Poll<Result<()>>)
      requires View().Valid()
      modifies this, session`wire, session`closed, session`ended
      ensures FlushReply(View(), poll) == RunShutdown(old(View()), envFlush, envClose)
      ensures session.closed && !old(session.closed) ==>
                sendFuture == None && session.wire == old(View()).Committed()
      ensures Completed(poll) ==> session.closed || old(shutdownFuture).Some?
    {
      ShutdownLedger(View(), envFlush, envClose);
      poll := PollFlush(envFlush);
      if !Completed(poll) {
        return;
      }
      if shutdownFuture.None? {
        shutdownFuture := Some(MarkingClosed);
      }
      var future := shutdownFuture.value;
      shutdownFuture := None;
      poll, future := session.PollClose(future, envClose);
      if poll.Pending? {
        shutdownFuture := Some(future);
      }
    }
  }

  datatype NextReply = NextReply(poll: Poll<Option<Bytes>>, recv: RecvFuture, queue: seq<Bytes>)

  /** `SessionStream::poll_next`, on the waiting `recv`, the session's closed flag and its queue. */
  function RunNext(recv: RecvFuture, closed: bool, queue: seq<Bytes>): NextReply {
    if recv == CheckingOpen && closed then NextReply(Ready(None), CheckingOpen, queue)
    else if queue == [] then NextReply(Pending, Receiving, queue)
    else NextReply(Ready(Some(queue[0])), CheckingOpen, queue[1..])
  }

  /** `SessionStream`: the source of the stream's reader. */
  class SessionStream {
    const session: Session
    var recvFuture: RecvFuture

    constructor (session: Session)
      ensures this.session == session && recvFuture == CheckingOpen
    {
      this.session := session;
      recvFuture := CheckingOpen;
    }

    /**
     * One poll of the stream: the oldest queued message, or the end of the stream if the pending `recv` started
     * after the session closed. A finished `recv` is replaced by a new one at once, a waiting one is kept.
     */
    method PollNext() returns (poll: Poll<Option<Bytes>>)
      modifies this, session`packetQueue
      ensures NextReply(poll, recvFuture, session.packetQueue)
              == RunNext(old(recvFuture), session.closed, old(session.packetQueue))
      ensures old(recvFuture) == CheckingOpen && session.closed ==>
                poll == Ready(None) && recvFuture == CheckingOpen && session.packetQueue == old(session.packetQueue)
      ensures !(old(recvFuture) == CheckingOpen && session.closed) ==>
                if old(session.packetQueue) == [] then
                  poll == Pending && recvFuture == Receiving && session.packetQueue == []
                else poll == Ready(Some(old(session.packetQueue)[0])) && recvFuture == CheckingOpen
                     && session.packetQueue == old(session.packetQueue)[1..]
    {
      var received, next := session.PollRecv(recvFuture);
      if received.Pending? {
        recvFuture := next;
        return Pending;
      }
      recvFuture := CheckingOpen;
      return Ready(received.value.value);
    }
  }

  // ----- What each poll promises -----

  /** A flush never changes what is committed unless it reports an error; Ready(Ok) means all of it is on the wire. */
  lemma FlushLedger(w: Writer, env: seq<Answer>)
    requires w.Valid()
    ensures var FlushReply(w', poll) := RunFlush(w, env);
            && w'.session.closed == w.session.closed && w'.closing == w.closing
            && match poll
               case Pending => w'.Committed() == w.Committed() && w.sending.Some? && w'.sending.Some?
                               && w'.sending.value.Deliverable() == w.sending.value.Deliverable()
               case Ready(Ok(_)) => w'.session.wire == w.Committed() && w'.sending == None
                                    && (w.sending.Some? ==> w.sending.value.Deliverable())
               case Ready(Err(_)) => w.session.wire <= w'.session.wire <= w.Committed() && w'.sending == None
                                     && w.sending.Some?
                                     && (w.sending.value.Deliverable() ==> w'.session.wire != w.Committed())
  {
    if w.sending.Some? {
      SendLedger(w.sending.value, w.session, env);
    }
  }

  /** The packets of one accepted buffer; none if it is too large to split. */
  function PacketsOf(buf: Bytes): seq<Bytes> {
    CheckingClosed(buf).Owed()
  }

  lemma StartFailsIff(w: Writer, buf: Bytes, env: seq<Answer>)
    requires w.Valid() && w.sending == None
    ensures Failed(RunStart(w, buf, env).poll) <==> Fails(CheckingClosed(buf), w.session, env)
  {
    SendOutcomeIff(CheckingClosed(buf), w.session, env);
  }

  lemma StartLedger(w: Writer, buf: Bytes, env: seq<Answer>)
    requires w.Valid() && w.sending == None
    ensures var WriteReply(w', poll) := RunStart(w, buf, env);
            && w'.session.closed == w.session.closed && w'.closing == w.closing
            && match poll
               case Pending => false
               case Ready(Ok(n)) => n == |buf| && w'.Committed() == w.Committed() + PacketsOf(buf)
                                    && (w'.sending == None ==> Splittable(buf))
                                    && (w'.sending.Some? && !w'.sending.value.Pushing? ==> w'.sending.value.data == buf)
                                    && (w'.sending.Some? ==> w'.sending.value.Deliverable() == Splittable(buf))
               case Ready(Err(_)) => w.session.wire <= w'.session.wire <= w.Committed() + PacketsOf(buf)
                                     && w'.sending == None
    ensures Failed(RunStart(w, buf, env).poll) <==> Fails(CheckingClosed(buf), w.session, env)
  {
    var SendPoll(sent, f, s) := RunSend(CheckingClosed(buf), w.session, env);
    SendLedger(CheckingClosed(buf), w.session, env);
    StartFailsIff(w, buf, env);
    assert w.Committed() == w.session.wire;
    if Completed(sent) {
      assert RunStart(w, buf, env).writer.Committed() == s.wire;
    }
  }

  /** A write that is accepted adds its packets, one that is told to wait adds nothing. */
  lemma WriteLedger(w: Writer, buf: Bytes, envOld: seq<Answer>, envNew: seq<Answer>)
    requires w.Valid()
    ensures var WriteReply(w', poll) := RunWrite(w, buf, envOld, envNew);
            && (Completed(poll) ==> poll.value.value == |buf| && w'.Committed() == w.Committed() + PacketsOf(buf))
            && (poll.Pending? ==> w'.Committed() == w.Committed())
            && w'.session.closed == w.session.closed && w'.closing == w.closing
  {
    FlushLedger(w, envOld);
    var flushed := RunFlush(w, envOld);
    if Completed(flushed.poll) {
      StartLedger(flushed.writer, buf, envNew);
      assert RunWrite(w, buf, envOld, envNew) == RunStart(flushed.writer, buf, envNew);
      assert flushed.writer.Committed() == w.Committed();
    }
  }

  /** An open, idle stream whose channel accepts everything writes a buffer out in the very poll that accepts it. */
  lemma WriteGoesOutAtOnce(w: Writer, buf: Bytes, envOld: seq<Answer>, envNew: seq<Answer>)
    requires w.sending == None && !w.session.closed && w.session.attached && Splittable(buf)
    requires Grants(envNew) >= 2 + SegmentCount(|buf|)
    ensures RunWrite(w, buf, envOld, envNew)
            == WriteReply(w.(session := w.session.(wire := w.session.wire + PacketsOf(buf))), Ready(Ok(|buf|)))
  {
    assert Grants(envNew) == 1 + Grants(envNew[1..]) && envNew[1..][1..] == envNew[2..];
    SendAnswers(buf, w.session, envNew);
    SendLedger(CheckingClosed(buf), w.session, envNew);
    assert Chunks(buf)[..SegmentCount(|buf|)] == Chunks(buf);
  }

  // ----- Exactly when a poll answers what -----

  predicate FlushFails(w: Writer, env: seq<Answer>) {
    w.sending.Some? && Fails(w.sending.value, w.session, env)
  }

  predicate FlushFinishes(w: Writer, env: seq<Answer>) {
    w.sending.Some? ==> Finishes(w.sending.value, w.session, env)
  }

  lemma FlushOutcomeIff(w: Writer, env: seq<Answer>)
    requires w.Valid()
    ensures Failed(RunFlush(w, env).poll) <==> FlushFails(w, env)
    ensures Completed(RunFlush(w, env).poll) <==> FlushFinishes(w, env)
  {
    if w.sending.Some? {
      SendOutcomeIff(w.sending.value, w.session, env);
    }
  }

  /**
   * A buffer is accepted exactly when the send before it finishes and its own send does not fail in this very poll;
   * the writer is told to wait exactly when the send before it neither finishes nor fails.
   */
  lemma WriteOutcomeIff(w: Writer, buf: Bytes, envOld: seq<Answer>, envNew: seq<Answer>)
    requires w.Valid()
    ensures var poll := RunWrite(w, buf, envOld, envNew).poll;
            && (Completed(poll) <==> FlushFinishes(w, envOld) && !Fails(CheckingClosed(buf), w.session, envNew))
            && (poll.Pending? <==> !FlushFinishes(w, envOld) && !FlushFails(w, envOld))
  {
    FlushOutcomeIff(w, envOld);
    FlushKeepsRest(w, envOld);
    SendOutcomeIff(CheckingClosed(buf), RunFlush(w, envOld).writer.session, envNew);
  }

  /** The error of a failed flush is that of the send in flight. */
  lemma FlushErrorIs(w: Writer, env: seq<Answer>)
    requires w.Valid() && FlushFails(w, env)
    ensures RunFlush(w, env).poll == Ready(Err(SendError(w.sending.value, w.session)))
  {
    SendErrorIs(w.sending.value, w.session, env);
  }

  /** The error of a failed write is that of the send before it, or else of its own. */
  lemma WriteErrorIs(w: Writer, buf: Bytes, envOld: seq<Answer>, envNew: seq<Answer>)
    requires w.Valid() && Failed(RunWrite(w, buf, envOld, envNew).poll)
    ensures var f := if FlushFails(w, envOld) then w.sending.value else CheckingClosed(buf);
            RunWrite(w, buf, envOld, envNew).poll == Ready(Err(SendError(f, w.session)))
  {
    WriteOutcomeIff(w, buf, envOld, envNew);
    FlushOutcomeIff(w, envOld);
    FlushKeepsRest(w, envOld);
    if FlushFails(w, envOld) {
      FlushErrorIs(w, envOld);
    } else {
      SendErrorIs(CheckingClosed(buf), RunFlush(w, envOld).writer.session, envNew);
    }
  }

  /** What a shutdown goes on to close. */
  function ClosingOf(w: Writer): CloseFuture {
    if w.closing.Some? then w.closing.value else MarkingClosed
  }

  /** A shutdown answers what its flush does until that has finished, and then what the close does. */
  lemma ShutdownOutcomeIff(w: Writer, envFlush: seq<Answer>, envClose: seq<Answer>)
    requires w.Valid()
    ensures var poll := RunShutdown(w, envFlush, envClose).poll;
            if FlushFails(w, envFlush) then poll == Ready(Err(SendError(w.sending.value, w.session)))
            else if !FlushFinishes(w, envFlush) then poll == Pending
            else poll == CloseAnswer(ClosingOf(w), w.session.closed, envClose)
  {
    FlushOutcomeIff(w, envFlush);
    FlushKeepsRest(w, envFlush);
    if FlushFails(w, envFlush) {
      FlushErrorIs(w, envFlush);
    } else if FlushFinishes(w, envFlush) {
      CloseOutcomeIff(ClosingOf(w), RunFlush(w, envFlush).writer.session, envClose);
    }
  }

  /**
   * A buffer too large to split is still accepted when its send stops before the split: at the closed check, or at
   * the channel lock of an open session.
   */
  lemma OversizedAcceptedIff(w: Writer, buf: Bytes, envOld: seq<Answer>, envNew: seq<Answer>)
    requires w.Valid() && !Splittable(buf)
    ensures Completed(RunWrite(w, buf, envOld, envNew).poll)
            <==> FlushFinishes(w, envOld) && (envNew == [] || (|envNew| == 1 && !w.session.closed))
  {
    WriteOutcomeIff(w, buf, envOld, envNew);
    if |envNew| == 1 {
      assert envNew[1..] == [];
    }
  }

  /** Then nothing of it ever goes out, and the next flush that gets through both await points reports why. */
  lemma OversizedReportedLater(w: Writer, buf: Bytes, env: seq<Answer>, later: seq<Answer>)
    requires w.Valid() && w.sending == None && !Splittable(buf)
    requires Completed(RunStart(w, buf, env).poll) && |later| >= 2
    ensures var accepted := RunStart(w, buf, env).writer;
            var error := if w.session.closed then ConnectionClosed
                         else if !w.session.attached then DataChannel else MessageTooLarge(|buf|);
            accepted.session == w.session && RunFlush(accepted, later) == FlushReply(w, Ready(Err(error)))
  {
    OversizedAcceptedIff(w, buf, [], env);
    assert RunWrite(w, buf, [], env) == RunStart(w, buf, env);
    assert later[1..] != [];
    if env == [] {
      SendAnswers(buf, w.session, later);
    } else {
      var waiting := LockingChannel(buf);
      assert RunSend(waiting, w.session, env[1..]) == SendPoll(Pending, waiting, w.session);
    }
  }

  // ----- Whole runs of poll calls -----

  datatype Call =
    | Write(buf: Bytes, envOld: seq<Answer>, envNew: seq<Answer>)
    | Flush(env: seq<Answer>)
    | Shutdown(envFlush: seq<Answer>, envClose: seq<Answer>)

  /** What a call answers; a send's error names the call that started the send. */
  datatype Reply = Waits | Succeeds | SendFails(owner: nat) | CloseFails

  /** A stream with the record of its run; `owner` is the call that started the send in flight. */
  datatype Run = Run(writer: Writer, owner: nat, replies: seq<Reply>, accepted: seq<Bytes>)

  function Start(session: Endpoint): Run {
    Run(Writer(session, None, None), 0, [], [])
  }

  function ReplyOf(flush: Poll<Result<()>>, owner: nat): Reply {
    match flush
    case Pending => Waits
    case Ready(Ok(_)) => Succeeds
    case Ready(Err(_)) => SendFails(owner)
  }

  function Perform(r: Run, call: Call): (r': Run)
    requires r.writer.Valid()
    ensures r'.writer.Valid()
  {
    match call
    case Write(buf, envOld, envNew) =>
      var flush := RunFlush(r.writer, envOld);
      var WriteReply(w, poll) := RunWrite(r.writer, buf, envOld, envNew);
      if !Completed(flush.poll) then
        r.(writer := w, replies := r.replies + [ReplyOf(flush.poll, r.owner)])
      else if Completed(poll) then
        Run(w, |r.replies|, r.replies + [Succeeds], r.accepted + [buf])
      else
        r.(writer := w, replies := r.replies + [SendFails(|r.replies|)])
    case Flush(env) =>
      var FlushReply(w, poll) := RunFlush(r.writer, env);
      r.(writer := w, replies := r.replies + [ReplyOf(poll, r.owner)])
    case Shutdown(envFlush, envClose) =>
      var flush := RunFlush(r.writer, envFlush);
      var FlushReply(w, poll) := RunShutdown(r.writer, envFlush, envClose);
      var reply :=
        if !Completed(flush.poll) then ReplyOf(flush.poll, r.owner)
        else if poll.Pending? then Waits
        else if poll.value.Ok? then Succeeds else CloseFails;
      r.(writer := w, replies := r.replies + [reply])
  }

  /** The reply of the flush that every call begins with, unless it finishes. */
  function FlushReplyTold(w: Writer, owner: nat, env: seq<Answer>): Option<Reply> {
    if FlushFails(w, env) then Some(SendFails(owner)) else if FlushFinishes(w, env) then None else Some(Waits)
  }

  /** What a call answers, told before it. */
  function ReplyTold(r: Run, call: Call): Reply {
    match call
    case Write(buf, envOld, envNew) =>
      var held := FlushReplyTold(r.writer, r.owner, envOld);
      if held.Some? then held.value
      else if Fails(CheckingClosed(buf), r.writer.session, envNew) then SendFails(|r.replies|) else Succeeds
    case Flush(env) =>
      var held := FlushReplyTold(r.writer, r.owner, env);
      if held.Some? then held.value else Succeeds
    case Shutdown(envFlush, envClose) =>
      var held := FlushReplyTold(r.writer, r.owner, envFlush);
      if held.Some? then held.value
      else
        match CloseAnswer(ClosingOf(r.writer), r.writer.session.closed, envClose)
        case Pending => Waits
        case Ready(Ok(_)) => Succeeds
        case Ready(Err(_)) => CloseFails
  }

  lemma RepliesAsTold(r: Run, call: Call)
    requires r.writer.Valid()
    ensures Perform(r, call).replies == r.replies + [ReplyTold(r, call)]
  {
    match call
    case Write(buf, envOld, envNew) =>
      FlushOutcomeIff(r.writer, envOld);
      WriteOutcomeIff(r.writer, buf, envOld, envNew);
    case Flush(env) => FlushOutcomeIff(r.writer, env);
    case Shutdown(envFlush, envClose) =>
      FlushOutcomeIff(r.writer, envFlush);
      ShutdownOutcomeIff(r.writer, envFlush, envClose);
  }

  function PerformAll(session: Endpoint, calls: seq<Call>): (r: Run)
    ensures r.writer.Valid() && |r.replies| == |calls|
  {
    if calls == [] then Start(session)
    else Perform(PerformAll(session, calls[..|calls| - 1]), calls[|calls| - 1])
  }

  /** While a send is in flight, the call that started it succeeded and every later call was told to wait. */
  ghost predicate OwnerIsWaitedFor(r: Run) {
    r.writer.sending.Some? ==>
      && r.owner < |r.replies|
      && r.replies[r.owner] == Succeeds
      && forall i :: r.owner < i < |r.replies| ==> r.replies[i] == Waits
  }

  /**
   * A reported send was started by this very call, or by an earlier call that succeeded and between which and
   * the report every call was told to wait: the report is the first reply after the send resolved.
   */
  ghost predicate ReportedByFirstToSee(replies: seq<Reply>, i: nat) {
    i < |replies| && replies[i].SendFails? ==>
      var o := replies[i].owner;
      o <= i && (o < i ==> replies[o] == Succeeds && forall k :: o < k < i ==> replies[k] == Waits)
  }

  /** A shutdown poll that gets past its flush has nothing left to push, and pushes nothing. */
  lemma ShutdownLedger(w: Writer, envFlush: seq<Answer>, envClose: seq<Answer>)
    requires w.Valid()
    ensures var flushed, r := RunFlush(w, envFlush), RunShutdown(w, envFlush, envClose);
            && (Completed(flushed.poll) ==> r.writer.sending == None && r.writer.session.wire == w.Committed())
            && (!Completed(flushed.poll) ==> r == flushed && r.writer.session.closed == w.session.closed)
            && (Completed(r.poll) ==> r.writer.session.closed || w.closing.Some?)
  {
    FlushLedger(w, envFlush);
    var flushed := RunFlush(w, envFlush).writer;
    CloseLedger(if flushed.closing.Some? then flushed.closing.value else MarkingClosed, flushed.session, envClose);
  }

  /** The effect of one call: what it answers, whose send it leaves in flight, and what becomes committed. */
  ghost predicate StepEffect(r: Run, r': Run, call: Call) {
    && |r'.replies| == |r.replies| + 1 && r'.replies[..|r.replies|] == r.replies
    && var last := r'.replies[|r.replies|];
    && (r'.writer.sending.Some? ==>
          || (r'.owner == |r.replies| && last == Succeeds)
          || (r.writer.sending.Some? && r'.owner == r.owner && last == Waits))
    && (last.SendFails? ==>
          last.owner == |r.replies| || (r.writer.sending.Some? && last.owner == r.owner))
    && (!last.SendFails? ==>
          || (r'.accepted == r.accepted && r'.writer.Committed() == r.writer.Committed())
          || (call.Write? && r'.accepted == r.accepted + [call.buf]
              && r'.writer.Committed() == r.writer.Committed() + PacketsOf(call.buf)))
    && (r'.writer.session.closed && !r.writer.session.closed ==>
          call.Shutdown? && !last.SendFails? && r'.writer.sending == None && r'.accepted == r.accepted
          && r'.writer.session.wire == r.writer.Committed())
  }

  /** A write that gets no further than the send before it. */
  lemma HeldWriteEffect(r: Run, call: Call)
    requires r.writer.Valid() && call.Write? && !Completed(RunFlush(r.writer, call.envOld).poll)
    ensures StepEffect(r, Perform(r, call), call)
  {
    FlushLedger(r.writer, call.envOld);
    var r' := Perform(r, call);
    assert r'.replies == r.replies + [ReplyOf(RunFlush(r.writer, call.envOld).poll, r.owner)];
  }

  /** A write that starts a send of its own. */
  lemma StartedWriteEffect(r: Run, call: Call)
    requires r.writer.Valid() && call.Write? && Completed(RunFlush(r.writer, call.envOld).poll)
    ensures StepEffect(r, Perform(r, call), call)
  {
    FlushLedger(r.writer, call.envOld);
    var flushed := RunFlush(r.writer, call.envOld).writer;
    StartLedger(flushed, call.buf, call.envNew);
    assert flushed.Committed() == r.writer.Committed();
    var started, r' := RunStart(flushed, call.buf, call.envNew), Perform(r, call);
    assert r'.writer == started.writer;
    assert r'.replies == r.replies + [if Completed(started.poll) then Succeeds else SendFails(|r.replies|)];
  }

  lemma WriteEffect(r: Run, call: Call)
    requires r.writer.Valid() && call.Write?
    ensures StepEffect(r, Perform(r, call), call)
  {
    if Completed(RunFlush(r.writer, call.envOld).poll) {
      StartedWriteEffect(r, call);
    } else {
      HeldWriteEffect(r, call);
    }
  }

  lemma PerformEffect(r: Run, call: Call)
    requires r.writer.Valid()
    ensures StepEffect(r, Perform(r, call), call)
  {
    match call
    case Write(_, _, _) => WriteEffect(r, call);
    case Flush(env) => FlushLedger(r.writer, env);
    case Shutdown(envFlush, envClose) =>
      FlushLedger(r.writer, envFlush);
      ShutdownLedger(r.writer, envFlush, envClose);
  }

  lemma StepKeepsInvariant(r: Run, r': Run, call: Call)
    requires StepEffect(r, r', call) && OwnerIsWaitedFor(r)
    requires forall i :: 0 <= i < |r.replies| ==> ReportedByFirstToSee(r.replies, i)
    ensures OwnerIsWaitedFor(r') && forall i :: 0 <= i < |r'.replies| ==> ReportedByFirstToSee(r'.replies, i)
  {
    assert forall i :: 0 <= i < |r.replies| ==> r'.replies[i] == r.replies[i];
    forall i | 0 <= i < |r'.replies|
      ensures ReportedByFirstToSee(r'.replies, i)
    {
      assert i < |r.replies| ==> ReportedByFirstToSee(r.replies, i);
    }
  }

  lemma {:induction false} RunInvariant(session: Endpoint, calls: seq<Call>)
    ensures var r := PerformAll(session, calls);
            OwnerIsWaitedFor(r) && forall i :: 0 <= i < |r.replies| ==> ReportedByFirstToSee(r.replies, i)
  {
    if calls != [] {
      var init, call := calls[..|calls| - 1], calls[|calls| - 1];
      RunInvariant(session, init);
      PerformEffect(PerformAll(session, init), call);
      StepKeepsInvariant(PerformAll(session, init), PerformAll(session, calls), call);
    }
  }

  /** Over any sequence of polls, no send's error is reported twice, and always by the first poll to see it. */
  lemma SendErrorsAreReportedOnce(session: Endpoint, calls: seq<Call>, i: nat, j: nat)
    requires i < j < |calls|
    ensures var replies := PerformAll(session, calls).replies;
            && ReportedByFirstToSee(replies, i)
            && (replies[i].SendFails? && replies[j].SendFails? ==> replies[i].owner <= i < replies[j].owner)
  {
    RunInvariant(session, calls);
    var replies := PerformAll(session, calls).replies;
    assert ReportedByFirstToSee(replies, i) && ReportedByFirstToSee(replies, j);
  }

  function PacketsOfAll(accepted: seq<Bytes>): seq<Bytes> {
    if accepted == [] then []
    else PacketsOfAll(accepted[..|accepted| - 1]) + PacketsOf(accepted[|accepted| - 1])
  }

  lemma PacketsOfAllSnoc(accepted: seq<Bytes>, buf: Bytes)
    ensures PacketsOfAll(accepted + [buf]) == PacketsOfAll(accepted) + PacketsOf(buf)
  {
    assert (accepted + [buf])[..|accepted|] == accepted;
  }

  ghost predicate NoSendFails(replies: seq<Reply>) {
    forall i :: 0 <= i < |replies| ==> !replies[i].SendFails?
  }

  /**
   * Writes are serialised: until a send fails, the packets pushed and still owed are those of the accepted
   * buffers, one buffer after another; a buffer that was told to wait contributes nothing.
   */
  lemma {:induction false} WritesAreSerialised(session: Endpoint, calls: seq<Call>)
    requires NoSendFails(PerformAll(session, calls).replies)
    ensures var r := PerformAll(session, calls);
            r.writer.Committed() == session.wire + PacketsOfAll(r.accepted)
  {
    if calls != [] {
      var init, call := calls[..|calls| - 1], calls[|calls| - 1];
      var before, after := PerformAll(session, init), PerformAll(session, calls);
      PerformEffect(before, call);
      assert forall i :: 0 <= i < |init| ==> before.replies[i] == after.replies[i];
      WritesAreSerialised(session, init);
      SerialStep(before, after, call, session.wire);
    }
  }

  lemma SerialStep(before: Run, after: Run, call: Call, wire: seq<Bytes>)
    requires StepEffect(before, after, call) && !after.replies[|before.replies|].SendFails?
    requires before.writer.Committed() == wire + PacketsOfAll(before.accepted)
    ensures after.writer.Committed() == wire + PacketsOfAll(after.accepted)
  {
    if call.Write? {
      PacketsOfAllSnoc(before.accepted, call.buf);
      ConcatAssoc(wire, PacketsOfAll(before.accepted), PacketsOf(call.buf));
    }
  }

  /** Polls close the session only in a shutdown poll, and only with every accepted write fully on the wire. */
  lemma ShutdownClosesDrained(session: Endpoint, calls: seq<Call>, call: Call)
    requires !PerformAll(session, calls).writer.session.closed
    requires Perform(PerformAll(session, calls), call).writer.session.closed
    ensures var before, after := PerformAll(session, calls), Perform(PerformAll(session, calls), call);
            && call.Shutdown? && after.writer.sending == None
            && after.writer.session.wire == before.writer.Committed()
            && (NoSendFails(before.replies) ==>
                  after.writer.session.wire == session.wire + PacketsOfAll(after.accepted))
  {
    var before := PerformAll(session, calls);
    if NoSendFails(before.replies) {
      WritesAreSerialised(session, calls);
    }
    PerformEffect(before, call);
  }

  // ----- Oversized buffers over whole runs -----

  /** Call `i` was accepted with a buffer too large to split, and every later call was told to wait. */
  ghost predicate AwaitsOversized(calls: seq<Call>, replies: seq<Reply>, i: nat)
    requires |calls| == |replies|
  {
    && i < |calls| && calls[i].Write? && !Splittable(calls[i].buf) && replies[i] == Succeeds
    && forall k :: i < k < |replies| ==> replies[k] == Waits
  }

  lemma {:induction false} OversizedStaysInFlight(session: Endpoint, calls: seq<Call>, i: nat)
    requires AwaitsOversized(calls, PerformAll(session, calls).replies, i)
    ensures var r := PerformAll(session, calls);
            r.owner == i && r.writer.sending.Some? && !r.writer.sending.value.Deliverable()
  {
    var init, call := calls[..|calls| - 1], calls[|calls| - 1];
    var before, after := PerformAll(session, init), PerformAll(session, calls);
    assert forall k :: 0 <= k < |init| ==> before.replies[k] == after.replies[k];
    if i == |init| {
      var flushed := RunFlush(before.writer, call.envOld);
      FlushLedger(before.writer, call.envOld);
      if Completed(flushed.poll) {
        StartLedger(flushed.writer, call.buf, call.envNew);
      }
    } else {
      OversizedStaysInFlight(session, init, i);
      OversizedStep(before, call);
    }
  }

  lemma OversizedStep(r: Run, call: Call)
    requires r.writer.Valid() && r.writer.sending.Some? && !r.writer.sending.value.Deliverable()
    ensures var r' := Perform(r, call);
            var last := r'.replies[|r.replies|];
            && (last == Waits || last == SendFails(r.owner))
            && (last == Waits ==> r'.owner == r.owner && r'.writer.sending.Some?
                                  && !r'.writer.sending.value.Deliverable())
  {
    match call
    case Write(_, envOld, _) => FlushLedger(r.writer, envOld);
    case Flush(env) => FlushLedger(r.writer, env);
    case Shutdown(envFlush, _) => FlushLedger(r.writer, envFlush);
  }

  /**
   * However calls are interleaved and polled, an accepted buffer that is too large to split is never passed over:
   * the first later call that is not told to wait reports the failure of that very write.
   */
  lemma OversizedWriteIsReported(session: Endpoint, calls: seq<Call>, i: nat, call: Call)
    requires AwaitsOversized(calls, PerformAll(session, calls).replies, i)
    ensures var last := Perform(PerformAll(session, calls), call).replies[|calls|];
            last == Waits || last == SendFails(i)
  {
    OversizedStaysInFlight(session, calls, i);
    OversizedStep(PerformAll(session, calls), call);
  }

  // ----- What a shutdown ends -----

  /** What is closed already and what the pending close still has to close make up everything there is. */
  ghost predicate EndingTracked(w: Writer, all: seq<Resource>) {
    && ToEnd(ClosingReliable, w.session) == all
    && (w.closing.Some? && w.closing.value != MarkingClosed ==> w.session.closed)
    && all == w.session.ended + if w.closing.Some? then ToEnd(w.closing.value, w.session)
                                else if w.session.closed then [] else all
  }

  lemma ShutdownTracksEnding(w: Writer, envFlush: seq<Answer>, envClose: seq<Answer>, all: seq<Resource>)
    requires w.Valid() && EndingTracked(w, all)
    ensures EndingTracked(RunShutdown(w, envFlush, envClose).writer, all)
    ensures Completed(RunShutdown(w, envFlush, envClose).poll) ==>
              RunShutdown(w, envFlush, envClose).writer.session.ended == all
  {
    FlushKeepsRest(w, envFlush);
    var flushed := RunFlush(w, envFlush);
    if Completed(flushed.poll) {
      var f := if w.closing.Some? then w.closing.value else MarkingClosed;
      CloseLedger(f, flushed.writer.session, envClose);
    }
  }

  /** A flush changes the wire and the send slot, nothing else. */
  lemma FlushKeepsRest(w: Writer, env: seq<Answer>)
    requires w.Valid()
    ensures var w' := RunFlush(w, env).writer;
            w' == w.(session := w.session.(wire := w'.session.wire), sending := w'.sending)
  {
    if w.sending.Some? {
      SendLedger(w.sending.value, w.session, env);
    }
  }

  lemma WriteKeepsRest(w: Writer, buf: Bytes, envOld: seq<Answer>, envNew: seq<Answer>)
    requires w.Valid()
    ensures var w' := RunWrite(w, buf, envOld, envNew).writer;
            w' == w.(session := w.session.(wire := w'.session.wire), sending := w'.sending)
  {
    FlushKeepsRest(w, envOld);
    SendLedger(CheckingClosed(buf), RunFlush(w, envOld).writer.session, envNew);
  }

  lemma CallTracksEnding(r: Run, call: Call, all: seq<Resource>)
    requires r.writer.Valid() && EndingTracked(r.writer, all)
    ensures EndingTracked(Perform(r, call).writer, all)
  {
    match call
    case Write(buf, envOld, envNew) => WriteKeepsRest(r.writer, buf, envOld, envNew);
    case Flush(env) => FlushKeepsRest(r.writer, env);
    case Shutdown(envFlush, envClose) => ShutdownTracksEnding(r.writer, envFlush, envClose, all);
  }

  lemma {:induction false} RunTracksEnding(session: Endpoint, calls: seq<Call>)
    requires !session.closed && session.ended == []
    ensures EndingTracked(PerformAll(session, calls).writer, ToEnd(MarkingClosed, session))
  {
    if calls != [] {
      var init := calls[..|calls| - 1];
      RunTracksEnding(session, init);
      CallTracksEnding(PerformAll(session, init), calls[|calls| - 1], ToEnd(MarkingClosed, session));
    }
  }

  /**
   * However writes, flushes and shutdowns are interleaved and polled, a shutdown that answers Ok has closed every
   * attached channel and the peer connection, each exactly once and in that order.
   */
  lemma ShutdownEndsEverything(session: Endpoint, calls: seq<Call>, envFlush: seq<Answer>, envClose: seq<Answer>)
    requires !session.closed && session.ended == []
    requires Completed(RunShutdown(PerformAll(session, calls).writer, envFlush, envClose).poll)
    ensures RunShutdown(PerformAll(session, calls).writer, envFlush, envClose).writer.session.ended
            == OneIf(session.attached, ReliableChannel) + OneIf(session.unreliable, UnreliableChannel)
               + [PeerConnection]
  {
    RunTracksEnding(session, calls);
    ShutdownTracksEnding(PerformAll(session, calls).writer, envFlush, envClose, ToEnd(MarkingClosed, session));
  }
}
