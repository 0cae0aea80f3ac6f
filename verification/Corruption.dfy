/**
 * What the peer can read, right or wrong, after sends have failed: exactly which states can still bring it bytes that
 * are no prefix of what was accepted although nothing else goes wrong.
 */
module Corruption {
  import opened Wrappers
  import opened Octets
  import opened Segments
  import opened Reassembly
  import opened Sessions
  import opened Streams
  import opened Pipeline
  import opened Tearing

  // ----- Continuing without another error -----

  /** Such steps can bring the reader bytes that are no prefix of what was accepted. */
  ghost predicate CanCorrupt(care: Care, s: State) {
    exists steps, s' :: Follows(care, s, steps, s') && !(s'.read <= Flatten(s'.accepted))
  }

  lemma TearingCallReportsError(w: Writer, call: Call)
    requires w.Valid() && Tears(w, call)
    ensures ReportsError(w, call)
  {
    match call
    case Write(buf, envOld, envNew) =>
      FlushOutcomeIff(w, envOld);
      FlushKeepsRest(w, envOld);
      WriteOutcomeIff(w, buf, envOld, envNew);
      if !FlushTears(w, envOld) {
        StartTearsIff(RunFlush(w, envOld).writer, buf, envNew);
      }
    case Flush(env) => FlushOutcomeIff(w, env);
    case Shutdown(envFlush, _) => FlushOutcomeIff(w, envFlush);
  }

  lemma {:induction false} NoErrorsTearNothing(s: State, steps: seq<Step>, s': State)
    requires Follows(NoErrors, s, steps, s')
    ensures Follows(TearsNothing, s, steps, s')
    decreases |steps|
  {
    if steps != [] {
      if steps[0].WriterCall? && Tears(s.writer, steps[0].call) {
        TearingCallReportsError(s.writer, steps[0].call);
      }
      NoErrorsTearNothing(Next(s, steps[0]), steps[1..], s');
    }
  }

  lemma CorruptWithoutErrors(s: State)
    requires CanCorrupt(NoErrors, s)
    ensures CanCorrupt(TearsNothing, s)
  {
    var steps, s' :| Follows(NoErrors, s, steps, s') && !(s'.read <= Flatten(s'.accepted));
    NoErrorsTearNothing(s, steps, s');
  }

  // ----- Quiet steps keep the accounting -----

  /** The data that the writer still has to bring to the receiver, or is going to report as too large. */
  function Outstanding(w: Writer): Bytes {
    Carried(w.Committed()) + Flatten(Doomed(w))
  }

  lemma {:induction false} CarriedEncoded(segments: seq<MessageSegment>)
    ensures Carried(EncodeAll(segments)) == Payload(segments)
  {
    if segments != [] {
      CarriedEncoded(segments[1..]);
      assert EncodeAll(segments)[1..] == EncodeAll(segments[1..]);
      assert Encode(segments[0])[1..] == segments[0].data;
    }
  }

  lemma QuietFlushKeepsOutstanding(w: Writer, env: seq<Answer>)
    requires w.Valid() && !FlushTears(w, env)
    ensures Outstanding(RunFlush(w, env).writer) == Outstanding(w)
  {
    FlushLedger(w, env);
    FlushOutcomeIff(w, env);
    var FlushReply(w', poll) := RunFlush(w, env);
    assert w'.sending == None ==> w'.Committed() == w'.session.wire;
    if w.sending.Some? {
      var f := w.sending.value;
      SendLedger(f, w.session, env);
      if Failed(poll) {
        EmptySendOwesOnePacket(f);
        assert w'.session.wire == w.session.wire by {
          assert |w'.session.wire| <= |w.session.wire|;
        }
        CarriedConcat(w.session.wire, [[0]]);
        assert Carried([[0]]) == [];
      }
    }
  }

  lemma CarriedPackets(buf: Bytes)
    ensures Carried(PacketsOf(buf)) == if Splittable(buf) then buf else []
  {
    if Splittable(buf) {
      CarriedEncoded(Chunks(buf));
      SplitShape(buf);
    }
  }

  /** What an accepted buffer adds: its packets, or itself as one bound to fail. */
  lemma AcceptedOutstanding(w: Writer, w': Writer, buf: Bytes)
    requires w.sending == None && w'.Committed() == w.Committed() + PacketsOf(buf)
    requires Doomed(w') == if Splittable(buf) then [] else [buf]
    ensures Outstanding(w') == Outstanding(w) + buf
  {
    CarriedConcat(w.Committed(), PacketsOf(buf));
    CarriedPackets(buf);
    FlattenOne(buf);
    var carried := Carried(w.Committed());
    assert Outstanding(w) == carried + [] == carried;
    assert carried + [] + buf == carried + buf + [];
  }

  lemma QuietStartOutstanding(w: Writer, buf: Bytes, env: seq<Answer>)
    requires w.Valid() && w.sending == None && !StartTears(w.session, buf, env)
    ensures var WriteReply(w', poll) := RunStart(w, buf, env);
            Outstanding(w') == Outstanding(w) + if Completed(poll) then buf else []
  {
    StartLedger(w, buf, env);
    StartTearsIff(w, buf, env);
    var WriteReply(w', poll) := RunStart(w, buf, env);
    if Completed(poll) {
      AcceptedOutstanding(w, w', buf);
    } else {
      assert w'.Committed() == w.Committed();
    }
  }

  /** A quiet call adds the same bytes to what is accepted and to what is outstanding. */
  lemma QuietCallOutstanding(s: State, call: Call) returns (added: Bytes)
    requires s.writer.Valid() && !Tears(s.writer, call)
    ensures Flatten(WriterStep(s, call).accepted) == Flatten(s.accepted) + added
    ensures Outstanding(WriterStep(s, call).writer) == Outstanding(s.writer) + added
  {
    added := [];
    match call
    case Write(buf, envOld, envNew) =>
      QuietFlushKeepsOutstanding(s.writer, envOld);
      FlushOutcomeIff(s.writer, envOld);
      FlushKeepsRest(s.writer, envOld);
      var flushed := RunFlush(s.writer, envOld);
      if Completed(flushed.poll) {
        QuietStartOutstanding(flushed.writer, buf, envNew);
        if Completed(RunStart(flushed.writer, buf, envNew).poll) {
          added := buf;
          FlattenConcat(s.accepted, NonEmpty(buf));
          FlattenOne(buf);
        }
      }
    case Flush(env) => QuietFlushKeepsOutstanding(s.writer, env);
    case Shutdown(envFlush, envClose) =>
      QuietFlushKeepsOutstanding(s.writer, envFlush);
      ShutdownKeepsOutstanding(s.writer, envFlush, envClose);
  }

  lemma ShutdownKeepsOutstanding(w: Writer, envFlush: seq<Answer>, envClose: seq<Answer>)
    requires w.Valid()
    ensures Outstanding(RunShutdown(w, envFlush, envClose).writer) == Outstanding(RunFlush(w, envFlush).writer)
  {
    var flushed := RunFlush(w, envFlush).writer;
    CloseLedger(if flushed.closing.Some? then flushed.closing.value else MarkingClosed, flushed.session, envClose);
  }

  /** Read, fetched, queued and blocked. */
  function Arrived(s: State): Bytes {
    s.read + s.chunk + Flatten(s.queue) + Flatten(Optional(s.blocked))
  }

  lemma AccountedMeans(s: State)
    ensures Accounted(s) <==> Flatten(s.accepted) == Arrived(s) + s.acc.data + Outstanding(s.writer)
  {
    ConcatAssoc(Arrived(s) + s.acc.data, Carried(s.writer.Committed()), Flatten(Doomed(s.writer)));
  }

  lemma QuietCallKeepsAccounted(s: State, call: Call)
    requires s.writer.Valid() && !Tears(s.writer, call) && Accounted(s)
    ensures Accounted(WriterStep(s, call))
  {
    var s' := WriterStep(s, call);
    AccountedMeans(s);
    AccountedMeans(s');
    var added := QuietCallOutstanding(s, call);
    ConcatAssoc(Arrived(s) + s.acc.data, Outstanding(s.writer), added);
  }

  lemma Exchange(a: Bytes, held: Bytes, first: Bytes, rest: Bytes, out: Bytes, next: Bytes)
    requires held + first == out + next
    ensures a + held + (first + rest) == a + out + next + rest
  {
    assert a + held + (first + rest) == a + (held + first) + rest;
    assert a + (out + next) + rest == a + out + next + rest;
  }

  lemma DeliverTakesOutstanding(s: State)
    requires s.writer.Valid() && Enabled(s, Deliver)
    ensures Outstanding(s.writer) == Carried([s.writer.session.wire[0]]) + Outstanding(Next(s, Deliver).writer)
  {
    var w, packets := Next(s, Deliver).writer, s.writer.Committed();
    assert packets[0] == s.writer.session.wire[0] && packets[1..] == w.Committed();
    CarriedSplit(packets);
    ConcatAssoc(Carried([packets[0]]), Carried(packets[1..]), Flatten(Doomed(w)));
  }

  lemma DeliverArrives(s: State)
    requires s.writer.Valid() && Enabled(s, Deliver)
    ensures var (next, complete) := Ingest(s.acc, s.writer.session.wire[0]);
            Arrived(Next(s, Deliver)) == Arrived(s) + Flatten(Optional(complete)) && Next(s, Deliver).acc == next
  {
    assert s.read + s.chunk + Flatten(s.queue) + [] == s.read + s.chunk + Flatten(s.queue);
  }

  lemma QuietDeliverKeepsAccounted(s: State)
    requires s.writer.Valid() && Enabled(s, Deliver) && Allows(TearsNothing, s, Deliver) && Accounted(s)
    ensures Accounted(Next(s, Deliver))
  {
    var packet := s.writer.session.wire[0];
    var (next, complete) := Ingest(s.acc, packet);
    IngestConservesBytes(s.acc, packet);
    DeliverTakesOutstanding(s);
    DeliverArrives(s);
    AccountedMeans(s);
    AccountedMeans(Next(s, Deliver));
    Exchange(Arrived(s), s.acc.data, Carried([packet]), Outstanding(Next(s, Deliver).writer),
             Flatten(Optional(complete)), next.data);
  }

  /** Moving the first part over keeps the whole. */
  lemma TakeFirst(front: Bytes, parts: seq<Bytes>)
    requires parts != []
    ensures front + [] + Flatten(parts) == front + parts[0] + Flatten(parts[1..])
  {
    assert front + [] == front;
    ConcatAssoc(front, parts[0], Flatten(parts[1..]));
  }

  /** Nothing has moved that the accounting tells apart. */
  ghost predicate SameStanding(s: State, s': State) {
    Arrived(s') == Arrived(s) && s'.writer == s.writer && s'.acc == s.acc && s'.accepted == s.accepted
  }

  lemma ReceiverMoveKeepsStanding(s: State, step: Step)
    requires s.writer.Valid() && Enabled(s, step) && !step.WriterCall? && !step.Deliver?
    ensures SameStanding(s, Next(s, step))
  {
    match step
    case Enqueue =>
      FlattenConcat(s.queue, [s.blocked.value]);
      ConcatAssoc(s.read + s.chunk, Flatten(s.queue), Flatten(Optional(s.blocked)));
    case PollReader =>
      PollReaderMoves(s);
      if s.queue != [] {
        TakeFirst(s.read, s.queue);
      }
    case Read(n) => assert s.read + s.chunk == s.read + s.chunk[..n] + s.chunk[n..];
    case CloseReader =>
  }

  lemma SameStandingAccounted(s: State, s': State)
    requires SameStanding(s, s') && Accounted(s)
    ensures Accounted(s')
  {
    AccountedMeans(s);
    AccountedMeans(s');
  }

  /** A step that tears nothing and has no packet refused keeps the accounting. */
  lemma QuietStepKeepsAccounted(s: State, step: Step)
    requires s.writer.Valid() && Enabled(s, step) && Allows(TearsNothing, s, step) && Accounted(s)
    ensures Accounted(Next(s, step))
  {
    if step.WriterCall? {
      QuietCallKeepsAccounted(s, step.call);
    } else if step.Deliver? {
      QuietDeliverKeepsAccounted(s);
    } else {
      ReceiverMoveKeepsStanding(s, step);
      SameStandingAccounted(s, Next(s, step));
    }
  }

  lemma {:induction false} AccountedCannotCorrupt(s: State, steps: seq<Step>, s': State)
    requires Accounted(s) && Follows(TearsNothing, s, steps, s')
    ensures s'.read <= Flatten(s'.accepted)
    decreases |steps|
  {
    if steps != [] {
      QuietStepKeepsAccounted(s, steps[0]);
      AccountedCannotCorrupt(Next(s, steps[0]), steps[1..], s');
    }
  }

  // ----- What can still reach the reader -----

  /** The packets before the first one that the receiver is going to refuse. */
  function CleanPart(acc: Accumulator, packets: seq<Bytes>): (clean: seq<Bytes>)
    ensures clean <= packets
    decreases packets
  {
    if packets == [] || OutOfOrder(acc, packets[0]) then []
    else [packets[0]] + CleanPart(Ingest(acc, packets[0]).0, packets[1..])
  }

  /** What becomes of them. */
  function Passing(acc: Accumulator, packets: seq<Bytes>): Received {
    Receive(acc, CleanPart(acc, packets))
  }

  lemma PassingFirst(acc: Accumulator, packets: seq<Bytes>)
    requires packets != [] && !OutOfOrder(acc, packets[0])
    ensures var (next, complete) := Ingest(acc, packets[0]);
            var rest := Passing(next, packets[1..]);
            Passing(acc, packets) == Received(rest.acc, Optional(complete) + rest.messages, rest.clean)
  {
    var clean := CleanPart(acc, packets);
    assert clean[1..] == CleanPart(Ingest(acc, packets[0]).0, packets[1..]);
  }

  lemma {:induction false} CleanPartIsAll(acc: Accumulator, packets: seq<Bytes>)
    requires Receive(acc, packets).clean
    ensures CleanPart(acc, packets) == packets
    decreases packets
  {
    if packets != [] {
      CleanPartIsAll(Ingest(acc, packets[0]).0, packets[1..]);
      assert packets == [packets[0]] + packets[1..];
    }
  }

  /** Behind a packet that is going to be refused nothing passes. */
  lemma {:induction false} CleanPartWithMore(acc: Accumulator, packets: seq<Bytes>, more: seq<Bytes>)
    requires !Receive(acc, packets).clean
    ensures CleanPart(acc, packets + more) == CleanPart(acc, packets) && !Receive(acc, packets + more).clean
    decreases packets
  {
    ConcatHeadTail(packets, more);
    if !OutOfOrder(acc, packets[0]) {
      CleanPartWithMore(Ingest(acc, packets[0]).0, packets[1..], more);
    }
  }

  /** More packets never change what passes before them. */
  lemma {:induction false} PassingWithMore(acc: Accumulator, packets: seq<Bytes>, more: seq<Bytes>)
    ensures Passing(acc, packets).messages <= Passing(acc, packets + more).messages
    decreases packets
  {
    if packets != [] && !OutOfOrder(acc, packets[0]) {
      ConcatHeadTail(packets, more);
      PassingFirst(acc, packets);
      PassingFirst(acc, packets + more);
      PassingWithMore(Ingest(acc, packets[0]).0, packets[1..], more);
    }
  }

  /** No packet that is committed is going to be refused. */
  predicate IsClean(s: State) {
    Receive(s.acc, s.writer.Committed()).clean
  }

  /** The messages on their way to the reader, up to a packet that is going to be refused. */
  function OnTheWay(s: State): seq<Bytes> {
    s.queue + Optional(s.blocked) + Passing(s.acc, s.writer.Committed()).messages
  }

  /** Those that the reader can take: all, or after its session has closed at most one, with a waiting `recv`. */
  function Takeable(s: State): seq<Bytes> {
    if !s.readerClosed then OnTheWay(s)
    else if s.recv == Receiving && OnTheWay(s) != [] then [OnTheWay(s)[0]] else []
  }

  /** All that the reader can get if nothing more is written. */
  function Obtainable(s: State): Bytes {
    s.read + s.chunk + Flatten(Takeable(s))
  }

  /** The reader can also get what is written next. */
  predicate WritesReach(s: State) {
    IsClean(s) && (s.readerClosed ==> s.recv == Receiving && OnTheWay(s) == [])
  }

  /**
   * If it can get what is written next, wrong bytes can come of any state that is not accounted for; if not, only of
   * one that has them on their way already.
   */
  ghost predicate Corruptible(s: State) {
    if WritesReach(s) then !Accounted(s) else !(Obtainable(s) <= Flatten(s.accepted))
  }

  // ----- How steps change it -----

  lemma DeliverKeepsOnTheWay(s: State)
    requires s.writer.Valid() && Enabled(s, Deliver) && !OutOfOrder(s.acc, s.writer.session.wire[0])
    ensures var s' := Next(s, Deliver);
            && OnTheWay(s') == OnTheWay(s) && IsClean(s') == IsClean(s)
            && Receive(s'.acc, s'.writer.Committed()).acc == Receive(s.acc, s.writer.Committed()).acc
  {
    var s', packets := Next(s, Deliver), s.writer.Committed();
    assert packets[0] == s.writer.session.wire[0] && packets[1..] == s'.writer.Committed();
    PassingFirst(s.acc, packets);
    ConcatAssoc(s.queue, Optional(s'.blocked), Passing(s'.acc, s'.writer.Committed()).messages);
    assert s.queue + [] == s.queue;
  }

  /** A flush that tears nothing keeps the committed packets, but for the one of an empty send that fails. */
  lemma QuietFlushCommitted(w: Writer, env: seq<Answer>)
    requires w.Valid() && !FlushTears(w, env)
    ensures var FlushReply(w', poll) := RunFlush(w, env);
            if Failed(poll) then w.Committed() == w'.Committed() + [[0]] else w'.Committed() == w.Committed()
  {
    FlushLedger(w, env);
    FlushOutcomeIff(w, env);
    var FlushReply(w', poll) := RunFlush(w, env);
    assert w'.sending == None ==> w'.Committed() == w'.session.wire;
    if Failed(poll) {
      SendLedger(w.sending.value, w.session, env);
      EmptySendOwesOnePacket(w.sending.value);
      assert w'.session.wire == w.session.wire by {
        assert |w'.session.wire| <= |w.session.wire|;
      }
    }
  }

  lemma QuietStartCommitted(w: Writer, buf: Bytes, env: seq<Answer>)
    requires w.Valid() && w.sending == None && !StartTears(w.session, buf, env)
    ensures w.Committed() <= RunStart(w, buf, env).writer.Committed()
  {
    StartLedger(w, buf, env);
    StartTearsIff(w, buf, env);
    var WriteReply(w', poll) := RunStart(w, buf, env);
    assert !Completed(poll) ==> w'.Committed() == w.Committed();
  }

  /** A call that tears nothing appends to the committed packets, or drops the packet of an empty send. */
  lemma QuietCallCommitted(s: State, call: Call)
    requires s.writer.Valid() && !Tears(s.writer, call)
    ensures var before, after := s.writer.Committed(), WriterStep(s, call).writer.Committed();
            before <= after || before == after + [[0]]
  {
    match call
    case Write(buf, envOld, envNew) =>
      QuietFlushCommitted(s.writer, envOld);
      FlushOutcomeIff(s.writer, envOld);
      FlushKeepsRest(s.writer, envOld);
      var flushed := RunFlush(s.writer, envOld);
      if Completed(flushed.poll) {
        QuietStartCommitted(flushed.writer, buf, envNew);
      }
    case Flush(env) => QuietFlushCommitted(s.writer, env);
    case Shutdown(envFlush, envClose) =>
      QuietFlushCommitted(s.writer, envFlush);
      ShutdownKeepsCommitted(s.writer, envFlush, envClose);
  }

  lemma ShutdownKeepsCommitted(w: Writer, envFlush: seq<Answer>, envClose: seq<Answer>)
    requires w.Valid()
    ensures RunShutdown(w, envFlush, envClose).writer.Committed() == RunFlush(w, envFlush).writer.Committed()
  {
    var flushed := RunFlush(w, envFlush).writer;
    CloseLedger(if flushed.closing.Some? then flushed.closing.value else MarkingClosed, flushed.session, envClose);
  }

  /** What passes only grows, and a packet that is going to be refused stays. */
  lemma CallKeepsOnTheWay(s: State, call: Call)
    requires s.writer.Valid() && !Tears(s.writer, call)
    ensures var s' := WriterStep(s, call);
            OnTheWay(s) <= OnTheWay(s') && (!IsClean(s) ==> OnTheWay(s') == OnTheWay(s) && !IsClean(s'))
  {
    QuietCallCommitted(s, call);
    var before, after := s.writer.Committed(), WriterStep(s, call).writer.Committed();
    var waiting := s.queue + Optional(s.blocked);
    if before <= after {
      assert after == before + after[|before|..];
      PassingWithMore(s.acc, before, after[|before|..]);
      if !IsClean(s) {
        CleanPartWithMore(s.acc, before, after[|before|..]);
      }
    } else {
      IgnoredAtEnd(s.acc, after);
    }
  }

  /** The packet of an empty message changes nothing. */
  lemma IgnoredAtEnd(acc: Accumulator, packets: seq<Bytes>)
    ensures Passing(acc, packets + [[0]]).messages == Passing(acc, packets).messages
    ensures Receive(acc, packets + [[0]]).clean == Receive(acc, packets).clean
  {
    ReceiveConcat(acc, packets, [[0]]);
    IgnoredPacket(Receive(acc, packets).acc);
    if Receive(acc, packets).clean {
      CleanPartIsAll(acc, packets);
      CleanPartIsAll(acc, packets + [[0]]);
      assert Receive(acc, packets).messages + [] == Receive(acc, packets).messages;
    } else {
      CleanPartWithMore(acc, packets, [[0]]);
    }
  }

  lemma OnTheWayAfterPoll(s: State)
    requires s.writer.Valid() && s.queue != []
    ensures OnTheWay(s) == [s.queue[0]] + OnTheWay(s.(queue := s.queue[1..]))
  {
    var passing := Optional(s.blocked) + Passing(s.acc, s.writer.Committed()).messages;
    assert OnTheWay(s) == s.queue + passing && OnTheWay(s.(queue := s.queue[1..])) == s.queue[1..] + passing;
  }

  lemma TakingKeepsObtainable(s: State)
    requires s.writer.Valid() && s.chunk == [] && s.queue != [] && !(s.recv == CheckingOpen && s.readerClosed)
    ensures var s' := s.(recv := CheckingOpen, chunk := s.queue[0], queue := s.queue[1..]);
            Obtainable(s') == Obtainable(s) && (WritesReach(s') <==> WritesReach(s))
  {
    var s', pending := s.(recv := CheckingOpen, chunk := s.queue[0], queue := s.queue[1..]), OnTheWay(s);
    OnTheWayAfterPoll(s);
    assert pending[0] == s.queue[0] && pending[1..] == OnTheWay(s.(queue := s.queue[1..])) == OnTheWay(s');
    TakeFirst(s.read, pending);
    FlattenOne(s.queue[0]);
    assert s.read + [] == s.read && s.read + s.queue[0] + [] == s.read + s.queue[0];
  }

  lemma PollReaderKeepsObtainable(s: State)
    requires s.writer.Valid() && Enabled(s, PollReader)
    ensures Obtainable(Next(s, PollReader)) == Obtainable(s)
    ensures WritesReach(Next(s, PollReader)) <==> WritesReach(s)
  {
    var s' := Next(s, PollReader);
    PollReaderMoves(s);
    if s.queue != [] && !(s.recv == CheckingOpen && s.readerClosed) {
      TakingKeepsObtainable(s);
      var taken := s.(recv := CheckingOpen, chunk := s.queue[0], queue := s.queue[1..]);
      assert s' == taken.(taken := s'.taken);
      assert OnTheWay(s') == OnTheWay(taken);
    } else {
      assert OnTheWay(s') == OnTheWay(s);
    }
  }

  lemma ReadKeepsObtainable(s: State, n: nat)
    requires s.writer.Valid() && Enabled(s, Read(n))
    ensures Obtainable(Next(s, Read(n))) == Obtainable(s)
    ensures WritesReach(Next(s, Read(n))) <==> WritesReach(s)
  {
    var s' := Next(s, Read(n));
    assert OnTheWay(s') == OnTheWay(s);
    assert s.read + s.chunk == s'.read + s'.chunk;
  }

  lemma EnqueueKeepsObtainable(s: State)
    requires s.writer.Valid() && Enabled(s, Enqueue)
    ensures Obtainable(Next(s, Enqueue)) == Obtainable(s)
    ensures WritesReach(Next(s, Enqueue)) <==> WritesReach(s)
  {
    assert OnTheWay(Next(s, Enqueue)) == OnTheWay(s);
  }

  lemma DeliverKeepsObtainable(s: State)
    requires s.writer.Valid() && Enabled(s, Deliver) && !OutOfOrder(s.acc, s.writer.session.wire[0])
    ensures Obtainable(Next(s, Deliver)) == Obtainable(s)
    ensures WritesReach(Next(s, Deliver)) <==> WritesReach(s)
  {
    DeliverKeepsOnTheWay(s);
  }

  /** A call of a writer whose writes do not reach the reader changes nothing for it. */
  lemma CallKeepsObtainable(s: State, call: Call)
    requires s.writer.Valid() && !Tears(s.writer, call) && !WritesReach(s)
    ensures Obtainable(WriterStep(s, call)) == Obtainable(s) && !WritesReach(WriterStep(s, call))
  {
    CallKeepsOnTheWay(s, call);
  }

  lemma ClosingKeepsObtainable(s: State)
    requires s.writer.Valid() && !WritesReach(s)
    ensures var s' := Next(s, CloseReader);
            Obtainable(s') <= Obtainable(s) && !WritesReach(s')
  {
    var s' := Next(s, CloseReader);
    var pending := OnTheWay(s);
    assert OnTheWay(s') == pending;
    if !s.readerClosed && pending != [] {
      FlattenOne(pending[0]);
      assert Flatten(pending) == pending[0] + Flatten(pending[1..]);
      ConcatAssoc(s.read + s.chunk, pending[0], Flatten(pending[1..]));
    }
  }

  // ----- States that nothing wrong can come of -----

  lemma QuietCallAccepts(s: State, call: Call)
    requires s.writer.Valid() && !Tears(s.writer, call)
    ensures Flatten(s.accepted) <= Flatten(WriterStep(s, call).accepted)
  {
    var added := QuietCallOutstanding(s, call);
  }

  lemma QuietStepKeepsObtainable(s: State, step: Step)
    requires s.writer.Valid() && Enabled(s, step) && Allows(TearsNothing, s, step) && !WritesReach(s)
    ensures var s' := Next(s, step);
            && Obtainable(s') <= Obtainable(s) && !WritesReach(s')
            && Flatten(s.accepted) <= Flatten(s'.accepted)
  {
    match step
    case WriterCall(call) =>
      CallKeepsObtainable(s, call);
      QuietCallAccepts(s, call);
    case Deliver => DeliverKeepsObtainable(s);
    case Enqueue => EnqueueKeepsObtainable(s);
    case PollReader => PollReaderKeepsObtainable(s);
    case Read(n) => ReadKeepsObtainable(s, n);
    case CloseReader => ClosingKeepsObtainable(s);
  }

  lemma {:induction false} UnreachedCannotCorrupt(s: State, steps: seq<Step>, s': State)
    requires !WritesReach(s) && Obtainable(s) <= Flatten(s.accepted) && Follows(TearsNothing, s, steps, s')
    ensures s'.read <= Flatten(s'.accepted)
    decreases |steps|
  {
    if steps == [] {
      assert s.read <= Obtainable(s);
    } else {
      QuietStepKeepsObtainable(s, steps[0]);
      UnreachedCannotCorrupt(Next(s, steps[0]), steps[1..], s');
    }
  }

  // ----- Draining the receiver -----

  /** Only what the reader has and what is on its way to it changes. */
  ghost predicate SameBut(s: State, s': State) {
    s' == s.(writer := s.writer.(session := s.writer.session.(wire := s'.writer.session.wire)), acc := s'.acc,
             blocked := s'.blocked, queue := s'.queue, chunk := s'.chunk, recv := s'.recv,
             taken := s'.taken, read := s'.read)
  }

  /** Everything that the reader can get has been read; if writes reach it, nothing is left but the accumulator. */
  ghost predicate Drained(s: State, s': State) {
    && SameBut(s, s') && s'.read == Obtainable(s)
    && (WritesReach(s) ==>
          && WritesReach(s') && OnTheWay(s') == [] && s'.chunk == [] && s'.writer.session.wire == []
          && s'.acc == Receive(s.acc, s.writer.Committed()).acc)
  }

  /** One step of draining, and what it leaves to be drained. */
  ghost predicate DrainsOn(s: State, step: Step) {
    && s.writer.Valid() && Enabled(s, step) && Allows(NoErrors, s, step)
    && var s' := Next(s, step);
       && SameBut(s, s') && Obtainable(s') == Obtainable(s) && (WritesReach(s') <==> WritesReach(s))
       && Receive(s'.acc, s'.writer.Committed()).acc == Receive(s.acc, s.writer.Committed()).acc
  }

  lemma StepDrainsOn(s: State, step: Step)
    requires s.writer.Valid() && Enabled(s, step) && Allows(NoErrors, s, step)
    requires step.Deliver? || step.Enqueue? || step.PollReader? || step.Read?
    ensures DrainsOn(s, step)
  {
    match step
    case Deliver =>
      DeliverKeepsOnTheWay(s);
      DeliverKeepsObtainable(s);
    case Enqueue => EnqueueKeepsObtainable(s);
    case PollReader => PollReaderKeepsObtainable(s);
    case Read(n) => ReadKeepsObtainable(s, n);
  }

  /** The reader has got everything: it is empty-handed, and may take nothing more or there is nothing more. */
  lemma NothingLeft(s: State)
    requires s.writer.Valid() && s.writer.sending == None && s.chunk == []
    requires s.queue != [] || s.blocked.Some? ==> s.readerClosed && s.recv == CheckingOpen
    requires s.queue == [] && s.blocked == None && s.writer.session.wire != [] ==>
               OutOfOrder(s.acc, s.writer.session.wire[0])
    ensures Drained(s, s)
  {
    assert s.writer.Committed() == s.writer.session.wire;
    assert s.read + [] + [] == s.read;
  }

  lemma DrainedTransfers(s: State, step: Step, s': State)
    requires DrainsOn(s, step) && Drained(Next(s, step), s')
    ensures Drained(s, s')
  {
  }

  /** What is left to move. */
  ghost predicate Smaller(s': State, s: State) {
    var w', w := |s'.writer.session.wire|, |s.writer.session.wire|;
    var b', b := |Optional(s'.blocked)|, |Optional(s.blocked)|;
    || w' < w
    || (w' == w && (b' < b || (b' == b && (|s'.queue| < |s.queue|
                                           || (|s'.queue| == |s.queue| && |s'.chunk| < |s.chunk|)))))
  }

  /** Unless everything is drained, some step drains on. */
  lemma DrainStep(s: State) returns (step: Option<Step>)
    requires s.writer.Valid() && s.capacity > 0 && s.writer.sending == None
    ensures step.None? ==> Drained(s, s)
    ensures step.Some? ==> DrainsOn(s, step.value) && Smaller(Next(s, step.value), s)
  {
    var taking := !(s.readerClosed && s.recv == CheckingOpen);
    if s.chunk != [] {
      step := Some(Read(|s.chunk|));
    } else if s.queue != [] && taking {
      step := Some(PollReader);
    } else if s.blocked.Some? && taking {
      step := Some(Enqueue);
    } else if s.queue == [] && s.blocked == None && s.writer.session.wire != []
              && !OutOfOrder(s.acc, s.writer.session.wire[0]) {
      step := Some(Deliver);
    } else {
      NothingLeft(s);
      return None;
    }
    StepDrainsOn(s, step.value);
  }

  /** The receiver can always be drained, as far as its reader still takes messages and it refuses no packet. */
  lemma {:induction false} Drain(s: State) returns (steps: seq<Step>, s': State)
    requires s.writer.Valid() && s.capacity > 0 && s.writer.sending == None
    ensures Follows(NoErrors, s, steps, s') && Drained(s, s')
    decreases |s.writer.session.wire|, |Optional(s.blocked)|, |s.queue|, |s.chunk|
  {
    var step := DrainStep(s);
    if step == None {
      return [], s;
    }
    steps, s' := Drain(Next(s, step.value));
    DrainedTransfers(s, step.value, s');
    steps := [step.value] + steps;
  }

  // ----- Reaching a wrong read -----

  predicate CanSend(w: Writer) {
    !w.session.closed && w.session.attached && Doomed(w) == []
  }

  function Grant(n: nat): (env: seq<Answer>)
    ensures |env| == n && forall i :: 0 <= i < n ==> env[i] == Granted
  {
    seq(n, _ => Granted)
  }

  lemma {:induction false} GrantGrants(env: seq<Answer>)
    requires forall i :: 0 <= i < |env| ==> env[i] == Granted
    ensures Grants(env) == |env|
  {
    if env != [] {
      GrantGrants(env[1..]);
    }
  }

  /** An open stream can get its send in flight out. */
  lemma FinishSending(s: State) returns (step: Step)
    requires s.writer.Valid() && CanSend(s.writer)
    ensures Enabled(s, step) && Allows(NoErrors, s, step)
    ensures Next(s, step)
            == s.(writer := s.writer.(session := s.writer.session.(wire := s.writer.Committed()), sending := None))
  {
    var w := s.writer;
    var env := Grant(if w.sending.Some? then 2 + |w.sending.value.Owed()| else 0);
    step := WriterCall(Flush(env));
    GrantGrants(env);
    if w.sending.Some? {
      var f := w.sending.value;
      GrantGrants(env[1..]);
      GrantGrants(env[1..][1..]);
      SendOutcomeIff(f, w.session, env);
      SendLedger(f, w.session, env);
    } else {
      assert w.Committed() == w.session.wire;
    }
  }

  /** Enough segments for an accumulator that expects so many, or nothing. */
  function SegmentsFor(expected: u8): nat {
    if expected == 0 then 1 else expected
  }

  /** The shortest message that is split into that many segments. */
  function Filler(expected: u8, b: u8): (data: Bytes)
    ensures data != [] && Splittable(data) && SegmentCount(|data|) == SegmentsFor(expected)
    ensures forall i :: 0 <= i < |data| ==> data[i] == b
  {
    seq((SegmentsFor(expected) - 1) * MAX_MESSAGE_SIZE + 1, _ => b)
  }

  /** The segments that an accumulator expects complete its message, whatever message they were cut from. */
  lemma {:induction false} ReceiveRest(acc: Accumulator, run: seq<MessageSegment>)
    requires |run| == SegmentsFor(acc.expected)
    requires forall i :: 0 <= i < |run| ==> run[i].remaining == |run| - 1 - i && run[i].data != []
    ensures Receive(acc, EncodeAll(run)) == Received(FRESH, [acc.data + Payload(run)], true)
    decreases |run|
  {
    var packets := EncodeAll(run);
    var (next, complete) := Ingest(acc, packets[0]);
    DecodeEncode(run[0]);
    if |run| == 1 {
      assert Payload(run[1..]) == [] && Payload(run) == run[0].data;
      assert complete == Some(acc.data + run[0].data);
      assert Receive(next, packets[1..]) == Received(FRESH, [], true);
    } else {
      ReceiveRest(next, run[1..]);
      assert packets[1..] == EncodeAll(run[1..]);
      ConcatAssoc(acc.data, run[0].data, Payload(run[1..]));
    }
  }

  lemma FillerReceived(acc: Accumulator, b: u8)
    ensures var data := Filler(acc.expected, b);
            Receive(acc, PacketsOf(data)) == Received(FRESH, [acc.data + data], true)
  {
    var data := Filler(acc.expected, b);
    SplitShape(data);
    ReceiveRest(acc, Chunks(data));
  }

  /** A write that meets no refusal goes out at once on an idle open stream. */
  lemma WriteQuietly(s: State, data: Bytes) returns (step: Step)
    requires s.writer.Valid() && CanSend(s.writer) && s.writer.sending == None && data != [] && Splittable(data)
    ensures Enabled(s, step) && Allows(NoErrors, s, step)
    ensures var e := s.writer.session;
            Next(s, step)
            == s.(writer := s.writer.(session := e.(wire := e.wire + PacketsOf(data))), accepted := s.accepted + [data])
  {
    var env := Grant(2 + SegmentCount(|data|));
    GrantGrants(env);
    GrantGrants(env[2..]);
    WriteGoesOutAtOnce(s.writer, data, [], env);
    step := WriterCall(Write(data, [], env));
  }

  lemma FillerPasses(acc: Accumulator, b: u8)
    ensures Passing(acc, PacketsOf(Filler(acc.expected, b))).messages == [acc.data + Filler(acc.expected, b)]
  {
    FillerReceived(acc, b);
    CleanPartIsAll(acc, PacketsOf(Filler(acc.expected, b)));
  }

  /** With nothing else on its way, a message that passes is what the reader gets next. */
  lemma OneMessageObtainable(s: State, message: Bytes)
    requires s.queue == [] && s.blocked == None && s.chunk == [] && (s.readerClosed ==> s.recv == Receiving)
    requires Passing(s.acc, s.writer.Committed()).messages == [message]
    ensures Obtainable(s) == s.read + message
  {
    assert OnTheWay(s) == [message];
    FlattenOne(message);
    assert s.read + [] == s.read;
  }

  /** The reader has everything, nothing is under way, and what is written next reaches it. */
  ghost predicate IsIdle(s: State) {
    && s.writer.Valid() && CanSend(s.writer) && s.writer.sending == None && s.capacity > 0
    && s.writer.session.wire == [] && s.chunk == [] && OnTheWay(s) == [] && WritesReach(s)
  }

  lemma FillerArrives(s: State, b: u8)
    requires IsIdle(s)
    ensures var data := Filler(s.acc.expected, b);
            var e := s.writer.session;
            var written := s.(writer := s.writer.(session := e.(wire := e.wire + PacketsOf(data))),
                              accepted := s.accepted + [data]);
            Obtainable(written) == s.read + s.acc.data + data
  {
    var data, e := Filler(s.acc.expected, b), s.writer.session;
    var written := s.(writer := s.writer.(session := e.(wire := e.wire + PacketsOf(data))),
                      accepted := s.accepted + [data]);
    FillerPasses(s.acc, b);
    assert written.writer.Committed() == PacketsOf(data);
    assert s.queue == [] && s.blocked == None;
    OneMessageObtainable(written, s.acc.data + data);
    ConcatAssoc(s.read, s.acc.data, data);
  }

  /** One more write completes whatever message the accumulator holds, and the reader gets both. */
  lemma CompleteWith(s: State, b: u8) returns (steps: seq<Step>, s': State)
    requires IsIdle(s)
    ensures Follows(NoErrors, s, steps, s')
    ensures s'.read == s.read + s.acc.data + Filler(s.acc.expected, b)
    ensures Flatten(s'.accepted) == Flatten(s.accepted) + Filler(s.acc.expected, b)
  {
    var data := Filler(s.acc.expected, b);
    var step := WriteQuietly(s, data);
    FillerArrives(s, b);
    steps, s' := Drain(Next(s, step));
    steps := [step] + steps;
    FlattenConcat(s.accepted, [data]);
    FlattenOne(data);
  }

  /** Not the byte of `accepted` that comes next after as many as were read. */
  function OtherThan(read: Bytes, accepted: Bytes): u8 {
    if |read| < |accepted| && accepted[|read|] == 0 then 1 else 0
  }

  lemma DivergesAfter(read: Bytes, accepted: Bytes, data: Bytes)
    requires read != accepted && data != [] && (|read| < |accepted| ==> data[0] != accepted[|read|])
    ensures !(read + data <= accepted + data)
  {
    if |read| < |accepted| {
      assert (read + data)[|read|] == data[0] && (accepted + data)[|read|] == accepted[|read|];
    } else if |read| == |accepted| {
      assert (read + data)[..|read|] == read && (accepted + data)[..|read|] == accepted;
    }
  }

  /** With the writer's packets out of its hands, the reader can get the same. */
  lemma SentKeepsObtainable(s: State, sent: State)
    requires s.writer.Valid() && sent.writer.Valid()
    requires sent
             == s.(writer := s.writer.(session := s.writer.session.(wire := s.writer.Committed()), sending := None))
    ensures sent.writer.Committed() == s.writer.Committed()
    ensures Obtainable(sent) == Obtainable(s) && (WritesReach(sent) <==> WritesReach(s))
  {
    assert sent.writer.Committed() == s.writer.Committed();
    assert OnTheWay(sent) == OnTheWay(s);
  }

  /** All that the reader can get can be brought to it without an error, with no send left in flight. */
  lemma BringAll(s: State) returns (steps: seq<Step>, s': State)
    requires s.writer.Valid() && CanSend(s.writer) && s.capacity > 0
    ensures Follows(NoErrors, s, steps, s')
    ensures s'.read == Obtainable(s) && s'.accepted == s.accepted
    ensures WritesReach(s) ==> IsIdle(s') && s'.acc == Receive(s.acc, s.writer.Committed()).acc
  {
    var step := FinishSending(s);
    var sent := Next(s, step);
    SentKeepsObtainable(s, sent);
    steps, s' := Drain(sent);
    steps := [step] + steps;
  }

  /** Accounted, where what is written next reaches the reader: what it gets and what stays in the accumulator. */
  lemma AccountedIfReached(s: State)
    requires Doomed(s.writer) == [] && WritesReach(s)
    ensures Accounted(s) <==> Flatten(s.accepted) == Obtainable(s) + Receive(s.acc, s.writer.Committed()).acc.data
  {
    var packets := s.writer.Committed();
    var r := Receive(s.acc, packets);
    CleanPartIsAll(s.acc, packets);
    ReceiveConservesBytes(s.acc, packets);
    AccountedMeans(s);
    assert Outstanding(s.writer) == Carried(packets);
    ConcatAssoc(Arrived(s), s.acc.data, Carried(packets));
    ConcatAssoc(Arrived(s), Flatten(r.messages), r.acc.data);
    TakeableArrives(s);
  }

  lemma TakeableArrives(s: State)
    requires WritesReach(s)
    ensures Obtainable(s) == Arrived(s) + Flatten(Receive(s.acc, s.writer.Committed()).messages)
  {
    var messages := Receive(s.acc, s.writer.Committed()).messages;
    CleanPartIsAll(s.acc, s.writer.Committed());
    FlattenConcat(s.queue, Optional(s.blocked));
    FlattenConcat(s.queue + Optional(s.blocked), messages);
    ConcatAssoc(s.read + s.chunk, Flatten(s.queue), Flatten(Optional(s.blocked)));
    ConcatAssoc(s.read + s.chunk, Flatten(s.queue) + Flatten(Optional(s.blocked)), Flatten(messages));
    assert Takeable(s) == OnTheWay(s);
  }

  lemma CorruptibleCanCorrupt(s: State)
    requires s.writer.Valid() && CanSend(s.writer) && s.capacity > 0 && Corruptible(s)
    ensures CanCorrupt(NoErrors, s)
  {
    var steps, idle := BringAll(s);
    if WritesReach(s) {
      AccountedIfReached(s);
      var read, accepted := idle.read + idle.acc.data, Flatten(s.accepted);
      var b := OtherThan(read, accepted);
      var last, s' := CompleteWith(idle, b);
      DivergesAfter(read, accepted, Filler(idle.acc.expected, b));
      FollowsConcat(NoErrors, s, steps, idle, last, s');
    }
  }

  lemma CorruptedWasCorruptible(s: State)
    requires s.writer.Valid() && CanCorrupt(TearsNothing, s)
    ensures Corruptible(s)
  {
    var steps, s' :| Follows(TearsNothing, s, steps, s') && !(s'.read <= Flatten(s'.accepted));
    if Accounted(s) {
      AccountedCannotCorrupt(s, steps, s');
    }
    if !WritesReach(s) && Obtainable(s) <= Flatten(s.accepted) {
      UnreachedCannotCorrupt(s, steps, s');
    }
  }

  /**
   * While the writer's session is open, wrong bytes can be read without another error exactly from the corruptible
   * states, torn or not; from the others not even calls that fail can bring them, unless one tears the stream.
   */
  lemma CanCorruptIff(s: State)
    requires s.writer.Valid() && CanSend(s.writer) && s.capacity > 0
    ensures CanCorrupt(NoErrors, s) <==> Corruptible(s)
    ensures CanCorrupt(TearsNothing, s) <==> Corruptible(s)
  {
    if Corruptible(s) {
      CorruptibleCanCorrupt(s);
    }
    if CanCorrupt(NoErrors, s) {
      CorruptWithoutErrors(s);
    }
    if CanCorrupt(TearsNothing, s) {
      CorruptedWasCorruptible(s);
    }
  }

  // ----- Every tear of an open stream can corrupt it -----

  lemma CleanPrefix(acc: Accumulator, kept: seq<Bytes>, all: seq<Bytes>)
    requires kept <= all && Receive(acc, all).clean
    ensures Receive(acc, kept).clean
  {
    assert all == kept + all[|kept|..];
    ReceiveConcat(acc, kept, all[|kept|..]);
  }

  /** What is left of a torn send does not make the receiver refuse anything that is under way. */
  ghost predicate LeavesClean(s: State, w: Writer) {
    w.sending == None && Receive(s.acc, w.Committed()).clean
  }

  lemma TearingFlushLeavesClean(s: State, env: seq<Answer>)
    requires Inv(s) && !s.torn && FlushTears(s.writer, env)
    ensures Failed(RunFlush(s.writer, env).poll) && LeavesClean(s, RunFlush(s.writer, env).writer)
  {
    FlushLedger(s.writer, env);
    FlushOutcomeIff(s.writer, env);
    var w := RunFlush(s.writer, env).writer;
    assert w.Committed() == w.session.wire;
    CleanPrefix(s.acc, w.session.wire, s.writer.Committed());
  }

  lemma TearingStartLeavesClean(s: State, buf: Bytes, env: seq<Answer>)
    requires Inv(s) && !s.torn && s.writer.sending == None && StartTears(s.writer.session, buf, env)
    ensures LeavesClean(s, RunStart(s.writer, buf, env).writer)
  {
    StartLedger(s.writer, buf, env);
    StartTearsIff(s.writer, buf, env);
    ExpectedAfterBuffer(s, s.writer.Committed(), buf);
    var w := RunStart(s.writer, buf, env).writer;
    assert w.Committed() == w.session.wire;
    CleanPrefix(s.acc, w.session.wire, s.writer.Committed() + PacketsOf(buf));
  }

  lemma TearingCallLeavesClean(s: State, call: Call)
    requires Inv(s) && !s.torn && Tears(s.writer, call)
    ensures var s' := WriterStep(s, call);
            && LeavesClean(s', s'.writer) && Doomed(s'.writer) == []
            && s'.writer.session == s.writer.session.(wire := s'.writer.session.wire)
  {
    match call
    case Write(buf, envOld, envNew) =>
      WriteKeepsRest(s.writer, buf, envOld, envNew);
      FlushOutcomeIff(s.writer, envOld);
      if FlushTears(s.writer, envOld) {
        TearingFlushLeavesClean(s, envOld);
      } else {
        FlushKeepsInv(s, envOld);
        FlushKeepsRest(s.writer, envOld);
        TearingStartLeavesClean(s.(writer := RunFlush(s.writer, envOld).writer), buf, envNew);
      }
    case Flush(env) =>
      FlushKeepsRest(s.writer, env);
      TearingFlushLeavesClean(s, env);
    case Shutdown(envFlush, _) =>
      FlushKeepsRest(s.writer, envFlush);
      TearingFlushLeavesClean(s, envFlush);
  }

  // ----- A closed stream cannot be corrupted -----

  /** Sends on a closed session stop at its flag. */
  ghost predicate StopsIfClosed(w: Writer) {
    w.session.attached && (w.session.closed && w.sending.Some? ==> w.sending.value.CheckingClosed?)
  }

  lemma CallStopsIfClosed(s: State, call: Call)
    requires s.writer.Valid() && StopsIfClosed(s.writer)
    ensures var w := WriterStep(s, call).writer;
            && StopsIfClosed(w)
            && (s.writer.session.closed ==> w.session.closed && w.session.wire == s.writer.session.wire)
  {
    match call
    case Write(buf, envOld, envNew) => WriteKeepsRest(s.writer, buf, envOld, envNew);
    case Flush(env) => FlushKeepsRest(s.writer, env);
    case Shutdown(envFlush, envClose) =>
      FlushKeepsRest(s.writer, envFlush);
      var w := RunFlush(s.writer, envFlush).writer;
      CloseLedger(if w.closing.Some? then w.closing.value else MarkingClosed, w.session, envClose);
  }

  lemma {:induction false} RunStopsIfClosed(s: State, steps: seq<Step>, s': State)
    requires StopsIfClosed(s.writer) && Follows(Anything, s, steps, s')
    ensures StopsIfClosed(s'.writer)
    decreases |steps|
  {
    if steps != [] {
      if steps[0].WriterCall? {
        CallStopsIfClosed(s, steps[0].call);
      }
      RunStopsIfClosed(Next(s, steps[0]), steps[1..], s');
    }
  }

  /** A closed stream whose bytes so far, sent ones included, are a prefix of what was accepted. */
  ghost predicate ClosedPrefix(s: State) {
    && StopsIfClosed(s.writer) && s.writer.session.closed
    && Arrived(s) + s.acc.data + Carried(s.writer.session.wire) <= Flatten(s.accepted)
  }

  lemma QuietCallKeepsClosedPrefix(s: State, call: Call)
    requires s.writer.Valid() && !Tears(s.writer, call) && ClosedPrefix(s)
    ensures ClosedPrefix(WriterStep(s, call))
  {
    CallStopsIfClosed(s, call);
    QuietCallAccepts(s, call);
    var s' := WriterStep(s, call);
    assert Arrived(s') == Arrived(s) && s'.acc == s.acc;
  }

  lemma QuietDeliverKeepsClosedPrefix(s: State)
    requires s.writer.Valid() && Enabled(s, Deliver) && Allows(TearsNothing, s, Deliver) && ClosedPrefix(s)
    ensures ClosedPrefix(Next(s, Deliver))
  {
    var wire := s.writer.session.wire;
    var (next, complete) := Ingest(s.acc, wire[0]);
    IngestConservesBytes(s.acc, wire[0]);
    DeliverArrives(s);
    CarriedSplit(wire);
    Exchange(Arrived(s), s.acc.data, Carried([wire[0]]), Carried(wire[1..]), Flatten(Optional(complete)), next.data);
  }

  lemma QuietStepKeepsClosedPrefix(s: State, step: Step)
    requires s.writer.Valid() && Enabled(s, step) && Allows(TearsNothing, s, step) && ClosedPrefix(s)
    ensures ClosedPrefix(Next(s, step))
  {
    if step.WriterCall? {
      QuietCallKeepsClosedPrefix(s, step.call);
    } else if step.Deliver? {
      QuietDeliverKeepsClosedPrefix(s);
    } else {
      ReceiverMoveKeepsStanding(s, step);
    }
  }

  lemma {:induction false} ClosedCannotCorrupt(s: State, steps: seq<Step>, s': State)
    requires ClosedPrefix(s) && Follows(TearsNothing, s, steps, s')
    ensures s'.read <= Flatten(s'.accepted)
    decreases |steps|
  {
    if steps != [] {
      QuietStepKeepsClosedPrefix(s, steps[0]);
      ClosedCannotCorrupt(Next(s, steps[0]), steps[1..], s');
    }
  }

  lemma TearingCallAcceptsNothing(s: State, call: Call)
    requires s.writer.Valid() && Tears(s.writer, call)
    ensures WriterStep(s, call).accepted == s.accepted
  {
    if call.Write? {
      WriteOutcomeIff(s.writer, call.buf, call.envOld, call.envNew);
      FlushOutcomeIff(s.writer, call.envOld);
      FlushKeepsRest(s.writer, call.envOld);
      if !FlushTears(s.writer, call.envOld) {
        StartTearsIff(RunFlush(s.writer, call.envOld).writer, call.buf, call.envNew);
      }
    }
  }

  lemma FrontIsPrefix(a: Bytes, b: Bytes, c: Bytes, d: Bytes)
    ensures a + b <= a + ((b + c) + d)
  {
    assert a + ((b + c) + d) == (a + b) + (c + d);
  }

  lemma TearingClosedKeepsPrefix(s: State, call: Call)
    requires Inv(s) && !s.torn && StopsIfClosed(s.writer) && s.writer.session.closed && Tears(s.writer, call)
    ensures ClosedPrefix(WriterStep(s, call))
  {
    InvAccounts(s);
    AccountedMeans(s);
    CallStopsIfClosed(s, call);
    TearingCallAcceptsNothing(s, call);
    var wire := s.writer.session.wire;
    var owed := if s.writer.sending.Some? then s.writer.sending.value.Owed() else [];
    CarriedConcat(wire, owed);
    FrontIsPrefix(Arrived(s) + s.acc.data, Carried(wire), Carried(owed), Flatten(Doomed(s.writer)));
  }

  lemma TearsUnlessHarmless(s: State, call: Call)
    requires Inv(s) && !s.torn && StopsIfClosed(s.writer)
    requires CanCorrupt(TearsNothing, WriterStep(s, call))
    ensures Tears(s.writer, call) && !s.writer.session.closed
  {
    var s' := WriterStep(s, call);
    var steps, t :| Follows(TearsNothing, s', steps, t) && !(t.read <= Flatten(t.accepted));
    if !Tears(s.writer, call) {
      WriterKeepsInv(s, call);
      InvAccounts(s');
      AccountedCannotCorrupt(s', steps, t);
    } else if s.writer.session.closed {
      TearingClosedKeepsPrefix(s, call);
      ClosedCannotCorrupt(s', steps, t);
    }
  }

  /** A tear of an open stream whose reader's session is open leaves a corruptible state. */
  lemma TearMakesCorruptible(s: State, call: Call)
    requires Inv(s) && !s.torn && StopsIfClosed(s.writer) && !s.writer.session.closed && Tears(s.writer, call)
    ensures var s' := WriterStep(s, call);
            CanSend(s'.writer) && IsClean(s') && (!s.readerClosed ==> Corruptible(s'))
  {
    TearingCallUnaccounts(s, call);
    TearingCallLeavesClean(s, call);
  }

  /**
   * The first tear decides. After any call on a reachable stream that is not torn, wrong bytes can be read without
   * another tear only if that call tears the stream and the session is open; and then, while the reader's session is
   * open as well, without any error at all.
   */
  lemma CorruptsIff(capacity: nat, steps: seq<Step>, s: State, call: Call)
    requires Reaches(capacity, steps, s) && !s.torn
    ensures s.writer.Valid()
    ensures CanCorrupt(TearsNothing, WriterStep(s, call)) ==> Tears(s.writer, call) && !s.writer.session.closed
    ensures capacity > 0 && !s.readerClosed ==>
              (CanCorrupt(NoErrors, WriterStep(s, call)) <==> Tears(s.writer, call) && !s.writer.session.closed)
  {
    ReachableInv(capacity, steps, s);
    RunStopsIfClosed(Init(capacity), steps, s);
    var s' := WriterStep(s, call);
    if CanCorrupt(NoErrors, s') {
      CorruptWithoutErrors(s');
    }
    if CanCorrupt(TearsNothing, s') {
      TearsUnlessHarmless(s, call);
    }
    if capacity > 0 && !s.readerClosed && Tears(s.writer, call) && !s.writer.session.closed {
      TearMakesCorruptible(s, call);
      CanCorruptIff(s');
    }
  }

  lemma FollowsOne(s: State, step: Step)
    requires s.writer.Valid() && Enabled(s, step)
    ensures Follows(Anything, s, [step], Next(s, step))
  {
    assert [step][1..] == [];
  }

  /** So every tear of such a stream begins a run that ends in a wrong read. */
  lemma CorruptionIsReachable(capacity: nat, steps: seq<Step>, s: State, call: Call)
    returns (run: seq<Step>, s': State)
    requires Reaches(capacity, steps, s) && !s.torn && capacity > 0 && !s.readerClosed
    requires s.writer.Valid() && Tears(s.writer, call) && !s.writer.session.closed
    ensures Reaches(capacity, run, s') && steps + [WriterCall(call)] <= run
    ensures !(s'.read <= Flatten(s'.accepted))
  {
    CorruptsIff(capacity, steps, s, call);
    var torn := WriterStep(s, call);
    var rest;
    rest, s' :| Follows(NoErrors, torn, rest, s') && !(s'.read <= Flatten(s'.accepted));
    FollowsAnyhow(NoErrors, torn, rest, s');
    FollowsOne(s, WriterCall(call));
    FollowsConcat(Anything, Init(capacity), steps, s, [WriterCall(call)], torn);
    run := steps + [WriterCall(call)] + rest;
    FollowsConcat(Anything, Init(capacity), steps + [WriterCall(call)], torn, rest, s');
  }

  // ----- One such run -----

  /** The first of two segments goes out, the second fails. */
  lemma SendFailsMidway(buf: Bytes, s: State, next: State, last: State)
    requires |buf| == MAX_MESSAGE_SIZE + 1 && s == Init(1)
    requires next == WriterStep(s, Write(buf, [], [Granted, Granted, Granted]))
    requires last == WriterStep(next, Flush([Refused]))
    ensures var sent := Endpoint(false, true, true, [[1] + buf[..MAX_MESSAGE_SIZE]], []);
            last == s.(writer := Writer(sent, None, None), accepted := [buf], torn := true)
  {
    var env := [Granted, Granted, Granted];
    assert env[1..] == [Granted, Granted] && env[1..][1..] == [Granted] && env[1..][1..][1..] == [];
    var rest := Chunks(buf);
    SplitKeepsValid(buf);
    assert rest[0] == MessageSegment(1, buf[..MAX_MESSAGE_SIZE]) && |rest| == 2;
    var e := s.writer.session;
    var e' := e.(wire := [Encode(rest[0])]);
    assert e.wire + [Encode(rest[0])] == e'.wire;
    assert RunSend(Pushing(rest), e, [Granted]) == SendPoll(Pending, Pushing(rest[1..]), e');
    assert RunSend(LockingChannel(buf), e, [Granted, Granted]) == RunSend(Pushing(rest), e, [Granted]);
    assert next.writer == Writer(e', Some(Pushing(rest[1..])), None);
    assert RunSend(Pushing(rest[1..]), e', [Refused]) == SendPoll(Ready(Err(DataChannel)), Pushing(rest[1..]), e');
  }

  function TwoCalls(buf: Bytes): seq<Step> {
    [WriterCall(Write(buf, [], [Granted, Granted, Granted])), WriterCall(Flush([Refused]))]
  }

  /** Two calls that tear a stream, and what they leave behind: the peer waits for one more segment. */
  lemma SendFailsMidwayReached(buf: Bytes) returns (torn: State)
    requires |buf| == MAX_MESSAGE_SIZE + 1
    ensures Reaches(1, TwoCalls(buf), torn)
    ensures torn == Init(1).(writer := torn.writer, accepted := [buf], torn := true)
    ensures torn.writer == Writer(Endpoint(false, true, true, [[1] + buf[..MAX_MESSAGE_SIZE]], []), None, None)
  {
    var steps := TwoCalls(buf);
    var next := Next(Init(1), steps[0]);
    torn := Next(next, steps[1]);
    SendFailsMidway(buf, Init(1), next, torn);
    FollowsOne(next, steps[1]);
    assert steps[1..] == [steps[1]];
  }

  lemma ReceiveFirstOfTwo(front: Bytes)
    requires front != []
    ensures Receive(FRESH, [[1] + front]) == Received(Accumulator(1, front), [], true)
  {
    var wire := [[1] + front];
    DecodeEncode(MessageSegment(1, front));
    assert wire[0] == Encode(MessageSegment(1, front)) && wire[1..] == [] && [] + front == front;
    assert Ingest(FRESH, wire[0]) == (Accumulator(1, front), None);
    assert Receive(Accumulator(1, front), wire[1..]) == Received(Accumulator(1, front), [], true);
  }

  /** The receiver gets the first of the two segments and waits for the other. */
  lemma DrainsToHalf(buf: Bytes, torn: State) returns (steps: seq<Step>, idle: State)
    requires |buf| == MAX_MESSAGE_SIZE + 1
    requires torn == Init(1).(writer := torn.writer, accepted := [buf], torn := true)
    requires torn.writer == Writer(Endpoint(false, true, true, [[1] + buf[..MAX_MESSAGE_SIZE]], []), None, None)
    ensures Follows(NoErrors, torn, steps, idle) && IsIdle(idle)
    ensures idle.read == [] && idle.acc == Accumulator(1, buf[..MAX_MESSAGE_SIZE]) && idle.accepted == [buf]
  {
    ReceiveFirstOfTwo(buf[..MAX_MESSAGE_SIZE]);
    assert torn.writer.Committed() == torn.writer.session.wire;
    CleanPartIsAll(FRESH, torn.writer.session.wire);
    assert OnTheWay(torn) == [];
    steps, idle := Drain(torn);
  }

  /**
   * A send of 10001 bytes fails between its two segments; the next one-byte write completes the wrong message. After
   * the failed flush neither side sees an error.
   */
  lemma TornStreamCanCorrupt(buf: Bytes, b: u8) returns (torn: State, steps: seq<Step>, s: State)
    requires |buf| == MAX_MESSAGE_SIZE + 1 && buf[MAX_MESSAGE_SIZE] != b
    ensures Reaches(1, TwoCalls(buf), torn) && Follows(NoErrors, torn, steps, s)
    ensures Reaches(1, TwoCalls(buf) + steps, s)
    ensures Flatten(s.accepted) == buf + [b] && s.read == buf[..MAX_MESSAGE_SIZE] + [b]
    ensures !(s.read <= Flatten(s.accepted))
  {
    torn := SendFailsMidwayReached(buf);
    var drain, idle := DrainsToHalf(buf, torn);
    var last;
    last, s := CompleteWith(idle, b);
    assert Filler(1, b) == [b] && [] + buf[..MAX_MESSAGE_SIZE] == buf[..MAX_MESSAGE_SIZE];
    FlattenOne(buf);
    steps := drain + last;
    FollowsConcat(NoErrors, torn, drain, idle, last, s);
    FollowsAnyhow(NoErrors, torn, steps, s);
    FollowsConcat(Anything, Init(1), TwoCalls(buf), torn, steps, s);
    assert s.read[MAX_MESSAGE_SIZE] == b && (buf + [b])[MAX_MESSAGE_SIZE] == buf[MAX_MESSAGE_SIZE];
  }
}
