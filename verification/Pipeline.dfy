/**
 * The byte stream end to end: one stream's writer, the ordered reliable channel, and the other side's
 * reassembly buffer, bounded queue and reader, under every interleaving of their steps.
 */
module Pipeline {
  import opened Wrappers
  import opened Octets
  import opened Segments
  import opened Reassembly
  import opened Sessions
  import opened Streams

  // ----- What a list of packets becomes at the receiver -----

  /** `clean` is false once a packet has been refused for its counter. */
  datatype Received = Received(acc: Accumulator, messages: seq<Bytes>, clean: bool)

  function Optional<T>(o: Option<T>): seq<T> {
    if o.Some? then [o.value] else []
  }

  predicate OutOfOrder(acc: Accumulator, packet: Bytes) {
    var decoded := Decode(packet);
    decoded.Ok? && Add(acc, decoded.value).1.Err?
  }

  function Receive(acc: Accumulator, packets: seq<Bytes>): Received
    decreases packets
  {
    if packets == [] then Received(acc, [], true)
    else
      var (next, complete) := Ingest(acc, packets[0]);
      var rest := Receive(next, packets[1..]);
      Received(rest.acc, Optional(complete) + rest.messages, !OutOfOrder(acc, packets[0]) && rest.clean)
  }

  lemma {:induction false} ReceiveConcat(acc: Accumulator, left: seq<Bytes>, right: seq<Bytes>)
    ensures var l := Receive(acc, left);
            var r := Receive(l.acc, right);
            Receive(acc, left + right) == Received(r.acc, l.messages + r.messages, l.clean && r.clean)
    decreases left
  {
    var l := Receive(acc, left);
    var r := Receive(l.acc, right);
    if left == [] {
      assert left + right == right && [] + r.messages == r.messages;
    } else {
      var (next, complete) := Ingest(acc, left[0]);
      ReceiveConcat(next, left[1..], right);
      var rest := Receive(next, left[1..]).messages;
      ConcatHeadTail(left, right);
      ConcatAssoc(Optional(complete), rest, r.messages);
    }
  }

  function Completions(outcomes: seq<Outcome>): seq<Bytes> {
    if outcomes == [] then []
    else (if outcomes[0].Ok? then Optional(outcomes[0].value) else []) + Completions(outcomes[1..])
  }

  lemma {:induction false} ReceiveFeeds(acc: Accumulator, segments: seq<MessageSegment>)
    requires forall s :: s in segments ==> s.data != []
    ensures var r, fed := Receive(acc, EncodeAll(segments)), Feed(acc, segments);
            && r.acc == fed.0 && r.messages == Completions(fed.1)
            && (r.clean <==> forall i :: 0 <= i < |fed.1| ==> fed.1[i].Ok?)
    decreases segments
  {
    if segments != [] {
      var packets := EncodeAll(segments);
      var (next, outcome) := Add(acc, segments[0]);
      DecodeEncode(segments[0]);
      ReceiveFeeds(next, segments[1..]);
      assert packets[1..] == EncodeAll(segments[1..]);
      var outcomes, rest := Feed(acc, segments).1, Feed(next, segments[1..]).1;
      assert outcomes == [outcome] + rest && outcomes[1..] == rest;
      assert forall i :: 0 <= i < |rest| ==> outcomes[i + 1] == rest[i];
    }
  }

  lemma {:induction false} CompletionsAfterWaiting(n: nat, message: Bytes)
    ensures Completions(Waiting(n) + [Ok(Some(message))]) == [message]
  {
    var outcomes: seq<Outcome> := Waiting(n) + [Ok(Some(message))];
    if n == 0 {
      assert outcomes[1..] == [];
    } else {
      CompletionsAfterWaiting(n - 1, message);
      assert outcomes[1..] == Waiting(n - 1) + [Ok(Some(message))];
    }
  }

  function NonEmpty(buf: Bytes): seq<Bytes> {
    if buf == [] then [] else [buf]
  }

  lemma EmptySendOwesOnePacket(f: SendFuture)
    requires f.Valid() && !f.HasData()
    ensures f.Owed() == [[0]] && f.Deliverable()
  {
    if f.Pushing? {
      assert f.rest[0] in f.rest;
    } else {
      EmptySplit();
    }
    var packets := EncodeAll([MessageSegment(0, [])]);
    assert |packets| == 1 && packets[0] == Encode(MessageSegment(0, [])) == [0];
  }

  lemma IgnoredPacket(acc: Accumulator)
    ensures Receive(acc, [[0]]) == Received(acc, [], true)
  {
    var packets: seq<Bytes> := [[0]];
    assert packets[1..] == [] && Ingest(acc, packets[0]) == (acc, None);
  }

  /** The packets of an accepted buffer reach an idle accumulator as that buffer; an empty one leaves no trace. */
  lemma ReceiveBuffer(buf: Bytes)
    requires Splittable(buf)
    ensures Receive(FRESH, PacketsOf(buf)) == Received(FRESH, NonEmpty(buf), true)
  {
    if buf == [] {
      EmptySendOwesOnePacket(CheckingClosed(buf));
      IgnoredPacket(FRESH);
    } else {
      SplitShape(buf);
      ChunksAreABlock(buf);
      ReceiveFeeds(FRESH, Chunks(buf));
      CompletionsAfterWaiting(|Chunks(buf)| - 1, buf);
    }
  }

  /** The data bytes that packets carry. */
  function Carried(packets: seq<Bytes>): Bytes {
    if packets == [] then []
    else (if packets[0] == [] then [] else packets[0][1..]) + Carried(packets[1..])
  }

  lemma IngestConservesBytes(acc: Accumulator, packet: Bytes)
    requires !OutOfOrder(acc, packet)
    ensures var (next, complete) := Ingest(acc, packet);
            acc.data + Carried([packet]) == Flatten(Optional(complete)) + next.data
  {
    var (next, complete) := Ingest(acc, packet);
    var one := [packet];
    assert one[1..] == [];
    if complete.Some? {
      FlattenOne(complete.value);
    }
  }

  lemma CarriedSplit(packets: seq<Bytes>)
    requires packets != []
    ensures Carried(packets) == Carried([packets[0]]) + Carried(packets[1..])
  {
    var first := [packets[0]];
    assert first[1..] == [];
  }

  lemma Regroup(held: Bytes, first: Bytes, rest: Bytes, out: Bytes, next: Bytes, outRest: Bytes, final: Bytes)
    requires held + first == out + next && next + rest == outRest + final
    ensures held + (first + rest) == (out + outRest) + final
  {
    assert held + (first + rest) == (held + first) + rest;
    assert (out + next) + rest == out + (next + rest);
    assert out + (outRest + final) == (out + outRest) + final;
  }

  /** Bytes are conserved by a receiver that refuses nothing. */
  lemma {:induction false} ReceiveConservesBytes(acc: Accumulator, packets: seq<Bytes>)
    requires Receive(acc, packets).clean
    ensures var r := Receive(acc, packets);
            acc.data + Carried(packets) == Flatten(r.messages) + r.acc.data
    decreases packets
  {
    if packets != [] {
      var (next, complete) := Ingest(acc, packets[0]);
      var rest := Receive(next, packets[1..]);
      ReceiveConservesBytes(next, packets[1..]);
      IngestConservesBytes(acc, packets[0]);
      CarriedSplit(packets);
      FlattenConcat(Optional(complete), rest.messages);
      Regroup(acc.data, Carried([packets[0]]), Carried(packets[1..]),
              Flatten(Optional(complete)), next.data, Flatten(rest.messages), rest.acc.data);
    }
  }

  // ----- The transition system -----

  /**
   * `writer.session.wire` is the channel's content. `blocked` is a completed message whose callback waits for
   * room in the queue; callbacks run one at a time. `chunk` is what the reader has fetched but not handed out,
   * `recv` the call with which it fetches. `readerClosed` is the flag of the session that the reader belongs to, which
   * its own side may close at any time.
   * History: `accepted`, the non-empty buffers that poll_write took; `taken`, the messages that left the queue;
   * `read`, the bytes handed to the application; `torn`, whether some call met the guards of `Tears`.
   */
  datatype State = State(
    writer: Writer,
    acc: Accumulator,
    blocked: Option<Bytes>,
    queue: seq<Bytes>,
    capacity: nat,
    chunk: Bytes,
    recv: RecvFuture,
    readerClosed: bool,
    accepted: seq<Bytes>,
    taken: seq<Bytes>,
    read: Bytes,
    torn: bool)

  datatype Step =
    | WriterCall(call: Call)
    | Deliver
    | Enqueue
    | PollReader
    | Read(n: nat)
    | CloseReader

  function Init(capacity: nat): State {
    var writer := Writer(Endpoint(false, true, true, [], []), None, None);
    State(writer, FRESH, None, [], capacity, [], CheckingOpen, false, [], [], [], false)
  }

  predicate Enabled(s: State, step: Step) {
    match step
    case WriterCall(_) => true
    case Deliver => s.blocked == None && s.writer.session.wire != []
    case Enqueue => s.blocked.Some? && |s.queue| < s.capacity
    case PollReader => s.chunk == []
    case Read(n) => 0 < n <= |s.chunk|
    case CloseReader => true
  }

  /** The send in flight is going to fail, and it carries data. */
  predicate FlushTears(w: Writer, env: seq<Answer>)
    requires w.Valid()
  {
    FlushFails(w, env) && w.sending.value.HasData()
  }

  /** A new send is going to push some of its packets and then fail. */
  predicate StartTears(s: Endpoint, buf: Bytes, env: seq<Answer>) {
    && !s.closed && s.attached && Splittable(buf)
    && |env| > 2 && env[2].Granted? && RefusesWithin(env[2..], SegmentCount(|buf|))
  }

  /** When a call is going to tear the stream, told before the call. */
  predicate Tears(w: Writer, call: Call)
    requires w.Valid()
  {
    match call
    case Write(buf, envOld, envNew) =>
      FlushTears(w, envOld) || (FlushFinishes(w, envOld) && StartTears(w.session, buf, envNew))
    case Flush(env) => FlushTears(w, env)
    case Shutdown(envFlush, _) => FlushTears(w, envFlush)
  }

  /** The guard of a partial push, against what the poll does. */
  lemma StartTearsIff(w: Writer, buf: Bytes, env: seq<Answer>)
    requires w.Valid() && w.sending == None
    ensures var r := RunStart(w, buf, env);
            StartTears(w.session, buf, env) <==> !Completed(r.poll) && r.writer.session.wire != w.session.wire
  {
    StartLedger(w, buf, env);
    if |env| >= 2 {
      SendAnswers(buf, w.session, env);
    }
  }

  function WriterStep(s: State, call: Call): (s': State)
    requires s.writer.Valid()
    ensures s'.writer.Valid()
  {
    var torn := s.torn || Tears(s.writer, call);
    match call
    case Write(buf, envOld, envNew) =>
      var WriteReply(w, poll) := RunWrite(s.writer, buf, envOld, envNew);
      s.(writer := w, accepted := if Completed(poll) then s.accepted + NonEmpty(buf) else s.accepted, torn := torn)
    case Flush(env) => s.(writer := RunFlush(s.writer, env).writer, torn := torn)
    case Shutdown(envFlush, envClose) => s.(writer := RunShutdown(s.writer, envFlush, envClose).writer, torn := torn)
  }

  function Next(s: State, step: Step): (s': State)
    requires s.writer.Valid() && Enabled(s, step)
    ensures s'.writer.Valid()
  {
    match step
    case WriterCall(call) => WriterStep(s, call)
    case Deliver =>
      var wire := s.writer.session.wire;
      var (next, complete) := Ingest(s.acc, wire[0]);
      s.(writer := s.writer.(session := s.writer.session.(wire := wire[1..])), acc := next, blocked := complete)
    case Enqueue => s.(queue := s.queue + [s.blocked.value], blocked := None)
    case PollReader =>
      var NextReply(poll, recv, queue) := RunNext(s.recv, s.readerClosed, s.queue);
      var polled := s.(recv := recv, queue := queue);
      if poll.Ready? && poll.value.Some? then
        polled.(chunk := poll.value.value, taken := s.taken + [poll.value.value])
      else polled
    case Read(n) => s.(read := s.read + s.chunk[..n], chunk := s.chunk[n..])
    case CloseReader => s.(readerClosed := true)
  }

  /** The poll of a call answers with an error. */
  predicate ReportsError(w: Writer, call: Call)
    requires w.Valid()
  {
    match call
    case Write(buf, envOld, envNew) => Failed(RunWrite(w, buf, envOld, envNew).poll)
    case Flush(env) => Failed(RunFlush(w, env).poll)
    case Shutdown(envFlush, envClose) => Failed(RunShutdown(w, envFlush, envClose).poll)
  }

  /** What the steps of a run may do; in the last two cases the receiver refuses no packet. */
  datatype Care = Anything | TearsNothing | NoErrors

  predicate Allows(care: Care, s: State, step: Step)
    requires s.writer.Valid() && Enabled(s, step)
  {
    match step
    case WriterCall(call) =>
      (care.TearsNothing? ==> !Tears(s.writer, call)) && (care.NoErrors? ==> !ReportsError(s.writer, call))
    case Deliver => care == Anything || !OutOfOrder(s.acc, s.writer.session.wire[0])
    case _ => true
  }

  /** Such steps lead from `s` to `s'`. */
  ghost predicate Follows(care: Care, s: State, steps: seq<Step>, s': State)
    decreases |steps|
  {
    if steps == [] then s' == s
    else
      && s.writer.Valid() && Enabled(s, steps[0]) && Allows(care, s, steps[0])
      && Follows(care, Next(s, steps[0]), steps[1..], s')
  }

  /** `s` is reached from a connected stream by some interleaving. */
  ghost predicate Reaches(capacity: nat, steps: seq<Step>, s: State) {
    Follows(Anything, Init(capacity), steps, s)
  }

  lemma {:induction false} FollowsConcat(
    care: Care, s: State, left: seq<Step>, mid: State, right: seq<Step>, s': State)
    requires Follows(care, s, left, mid) && Follows(care, mid, right, s')
    ensures Follows(care, s, left + right, s')
    decreases |left|
  {
    if left == [] {
      assert left + right == right;
    } else {
      ConcatHeadTail(left, right);
      FollowsConcat(care, Next(s, left[0]), left[1..], mid, right, s');
    }
  }

  lemma {:induction false} FollowsAnyhow(care: Care, s: State, steps: seq<Step>, s': State)
    requires Follows(care, s, steps, s')
    ensures Follows(Anything, s, steps, s')
    decreases |steps|
  {
    if steps != [] {
      FollowsAnyhow(care, Next(s, steps[0]), steps[1..], s');
    }
  }

  // ----- The invariant -----

  /** An accepted buffer that is too large to split; its send is bound to fail. */
  function Doomed(w: Writer): seq<Bytes> {
    if w.sending.Some? && !w.sending.value.Deliverable() then [w.sending.value.data] else []
  }

  /** The messages that the committed packets are going to become. */
  function Expected(s: State): Received {
    Receive(s.acc, s.writer.Committed())
  }

  ghost predicate Inv(s: State) {
    && s.writer.Valid()
    && Flatten(s.taken) == s.read + s.chunk
    && |s.queue| <= s.capacity
    && (forall m :: m in s.accepted ==> m != [])
    && (!s.torn ==>
          && Expected(s).clean && Expected(s).acc == FRESH
          && s.accepted == s.taken + s.queue + Optional(s.blocked) + Expected(s).messages + Doomed(s.writer))
  }

  /** A flush that tears nothing keeps what is expected, even when an empty send fails. */
  lemma FlushKeepsInv(s: State, env: seq<Answer>)
    requires Inv(s) && !s.torn && !FlushTears(s.writer, env)
    ensures Inv(s.(writer := RunFlush(s.writer, env).writer))
    ensures var FlushReply(w, poll) := RunFlush(s.writer, env);
            Completed(poll) ==> Doomed(w) == [] && w.session.wire == w.Committed()
  {
    FlushLedger(s.writer, env);
    FlushOutcomeIff(s.writer, env);
    var FlushReply(w, poll) := RunFlush(s.writer, env);
    assert w.sending == None ==> w.Committed() == w.session.wire;
    if s.writer.sending.Some? {
      var f := s.writer.sending.value;
      SendLedger(f, s.writer.session, env);
      if Failed(poll) {
        EmptySendOwesOnePacket(f);
        assert w.session.wire == s.writer.session.wire by {
          assert |w.session.wire| <= |s.writer.session.wire|;
        }
        ReceiveConcat(s.acc, s.writer.session.wire, [[0]]);
        IgnoredPacket(Receive(s.acc, s.writer.session.wire).acc);
        assert Expected(s).messages == Receive(s.acc, s.writer.session.wire).messages + [];
      }
    }
  }

  /** What one more accepted buffer is going to become. */
  lemma ExpectedAfterBuffer(s: State, committed: seq<Bytes>, buf: Bytes)
    requires Receive(s.acc, committed).clean && Receive(s.acc, committed).acc == FRESH
    ensures var before, after := Receive(s.acc, committed), Receive(s.acc, committed + PacketsOf(buf));
            after == Received(FRESH, before.messages + (if Splittable(buf) then NonEmpty(buf) else []), true)
  {
    ReceiveConcat(s.acc, committed, PacketsOf(buf));
    if Splittable(buf) {
      ReceiveBuffer(buf);
    }
  }

  lemma MoreAccepted(
    before: seq<Bytes>, expected: seq<Bytes>, added: seq<Bytes>, doomed: seq<Bytes>, accepted: seq<Bytes>)
    requires accepted == before + expected + []
    ensures accepted + (added + doomed) == before + (expected + added) + doomed
  {
    assert accepted == before + expected;
    ConcatAssoc(before, expected, added);
    ConcatAssoc(before + expected, added, doomed);
  }

  /** Once its packets are committed, or its send is doomed, an accepted buffer is what was added to the invariant. */
  lemma AcceptedKeepsInv(s: State, w: Writer, buf: Bytes)
    requires Inv(s) && !s.torn && s.writer.sending == None && w.Valid()
    requires w.Committed() == s.writer.Committed() + PacketsOf(buf)
    requires Doomed(w) == if Splittable(buf) then [] else [buf]
    ensures Inv(s.(writer := w, accepted := s.accepted + NonEmpty(buf)))
  {
    var s' := s.(writer := w, accepted := s.accepted + NonEmpty(buf));
    var added := if Splittable(buf) then NonEmpty(buf) else [];
    ExpectedAfterBuffer(s, s.writer.Committed(), buf);
    assert Expected(s') == Received(FRESH, Expected(s).messages + added, true);
    assert NonEmpty(buf) == added + Doomed(w);
    MoreAccepted(s.taken + s.queue + Optional(s.blocked), Expected(s).messages, added, Doomed(w), s.accepted);
  }

  lemma StartKeepsInv(s: State, buf: Bytes, env: seq<Answer>)
    requires Inv(s) && !s.torn && s.writer.sending == None
    ensures var WriteReply(w, poll) := RunStart(s.writer, buf, env);
            && (Completed(poll) ==> Inv(s.(writer := w, accepted := s.accepted + NonEmpty(buf))))
            && (!Completed(poll) && !StartTears(s.writer.session, buf, env) ==> Inv(s.(writer := w)))
  {
    StartLedger(s.writer, buf, env);
    StartTearsIff(s.writer, buf, env);
    var WriteReply(w, poll) := RunStart(s.writer, buf, env);
    if Completed(poll) {
      AcceptedKeepsInv(s, w, buf);
    } else {
      assert w.Committed() == w.session.wire && s.writer.Committed() == s.writer.session.wire;
    }
  }

  lemma ShutdownKeepsInv(s: State, envFlush: seq<Answer>, envClose: seq<Answer>)
    requires Inv(s) && !s.torn && !FlushTears(s.writer, envFlush)
    ensures Inv(s.(writer := RunShutdown(s.writer, envFlush, envClose).writer))
  {
    FlushKeepsInv(s, envFlush);
    ShutdownLedger(s.writer, envFlush, envClose);
    FlushLedger(s.writer, envFlush);
    var w := RunShutdown(s.writer, envFlush, envClose).writer;
    assert w.sending == None ==> w.Committed() == w.session.wire;
  }

  lemma WriterKeepsInv(s: State, call: Call)
    requires Inv(s)
    ensures Inv(WriterStep(s, call))
  {
    if !WriterStep(s, call).torn {
      match call
      case Write(buf, envOld, envNew) =>
        FlushKeepsInv(s, envOld);
        FlushOutcomeIff(s.writer, envOld);
        FlushKeepsRest(s.writer, envOld);
        var flushed := RunFlush(s.writer, envOld);
        if Completed(flushed.poll) {
          StartKeepsInv(s.(writer := flushed.writer), buf, envNew);
        }
      case Flush(env) => FlushKeepsInv(s, env);
      case Shutdown(envFlush, envClose) => ShutdownKeepsInv(s, envFlush, envClose);
    }
  }

  lemma DeliverKeepsInv(s: State)
    requires Inv(s) && Enabled(s, Deliver)
    ensures Inv(Next(s, Deliver))
  {
    var s' := Next(s, Deliver);
    var committed := s.writer.Committed();
    assert committed[0] == s.writer.session.wire[0] && committed[1..] == s'.writer.Committed();
    var before := s.taken + s.queue;
    assert before + [] == before;
    ConcatAssoc(before, Optional(s'.blocked), Expected(s').messages);
  }

  lemma EnqueueKeepsInv(s: State)
    requires Inv(s) && Enabled(s, Enqueue)
    ensures Inv(Next(s, Enqueue))
  {
    var s' := Next(s, Enqueue);
    assert s.taken + s.queue + Optional(s.blocked) == s'.taken + s'.queue + Optional(s'.blocked);
  }

  /** What a poll of the reader does to the state. */
  lemma PollReaderMoves(s: State)
    requires s.writer.Valid() && Enabled(s, PollReader)
    ensures var s' := Next(s, PollReader);
            if s.queue == [] || (s.recv == CheckingOpen && s.readerClosed) then
              s' == s.(recv := s'.recv) && (s.readerClosed ==> s' == s)
            else s' == s.(recv := CheckingOpen, chunk := s.queue[0], queue := s.queue[1..],
                          taken := s.taken + [s.queue[0]])
  {
  }

  lemma TakeKeepsInv(s: State, s': State)
    requires Inv(s) && s.chunk == [] && s.queue != []
    requires s' == s.(recv := CheckingOpen, chunk := s.queue[0], queue := s.queue[1..], taken := s.taken + [s.queue[0]])
    ensures Inv(s')
  {
    FlattenConcat(s.taken, [s.queue[0]]);
    FlattenOne(s.queue[0]);
    assert s.taken + s.queue == s'.taken + s'.queue;
    assert s.read + [] == s.read;
  }

  lemma PollReaderKeepsInv(s: State)
    requires Inv(s) && Enabled(s, PollReader)
    ensures Inv(Next(s, PollReader))
  {
    PollReaderMoves(s);
    if s.queue != [] && !(s.recv == CheckingOpen && s.readerClosed) {
      TakeKeepsInv(s, Next(s, PollReader));
    }
  }

  lemma ReadKeepsInv(s: State, n: nat)
    requires Inv(s) && Enabled(s, Read(n))
    ensures Inv(Next(s, Read(n)))
  {
    var s' := Next(s, Read(n));
    assert s.read + s.chunk == s'.read + s'.chunk;
  }

  lemma StepKeepsInv(s: State, step: Step)
    requires Inv(s) && Enabled(s, step)
    ensures Inv(Next(s, step)) && Next(s, step).capacity == s.capacity
  {
    match step
    case WriterCall(call) => WriterKeepsInv(s, call);
    case Deliver => DeliverKeepsInv(s);
    case Enqueue => EnqueueKeepsInv(s);
    case PollReader => PollReaderKeepsInv(s);
    case Read(n) => ReadKeepsInv(s, n);
    case CloseReader =>
  }

  lemma {:induction false} RunKeepsInv(s: State, steps: seq<Step>, s': State)
    requires Inv(s) && Follows(Anything, s, steps, s')
    ensures Inv(s') && s'.capacity == s.capacity
    decreases |steps|
  {
    if steps != [] {
      StepKeepsInv(s, steps[0]);
      RunKeepsInv(Next(s, steps[0]), steps[1..], s');
    }
  }

  lemma ReachableInv(capacity: nat, steps: seq<Step>, s: State)
    requires Reaches(capacity, steps, s)
    ensures Inv(s) && s.capacity == capacity
  {
    RunKeepsInv(Init(capacity), steps, s);
  }

  // ----- The theorems -----

  lemma FlattenFive(a: seq<Bytes>, b: seq<Bytes>, c: seq<Bytes>, d: seq<Bytes>, e: seq<Bytes>)
    ensures Flatten(a + b + c + d + e) == Flatten(a) + Flatten(b) + Flatten(c) + Flatten(d) + Flatten(e)
  {
    FlattenConcat(a, b);
    FlattenConcat(a + b, c);
    FlattenConcat(a + b + c, d);
    FlattenConcat(a + b + c + d, e);
  }

  /**
   * Every accepted byte is somewhere, in order: read, fetched, queued, waiting for the queue, in the
   * accumulator, on the wire, or owed by the send in flight.
   */
  ghost predicate Accounted(s: State) {
    Flatten(s.accepted) == s.read + s.chunk + Flatten(s.queue) + Flatten(Optional(s.blocked))
                           + s.acc.data + Carried(s.writer.Committed()) + Flatten(Doomed(s.writer))
  }

  lemma InvAccounts(s: State)
    requires Inv(s) && !s.torn
    ensures Accounted(s)
  {
    ReceiveConservesBytes(s.acc, s.writer.Committed());
    var messages := Expected(s).messages;
    assert Flatten(messages) == s.acc.data + Carried(s.writer.Committed());
    FlattenFive(s.taken, s.queue, Optional(s.blocked), messages, Doomed(s.writer));
    var head := s.read + s.chunk + Flatten(s.queue) + Flatten(Optional(s.blocked));
    assert head + Flatten(messages) == head + s.acc.data + Carried(s.writer.Committed());
  }

  /** In every reachable state that is not torn, every accepted byte is accounted for. */
  lemma EveryByteAccountedFor(capacity: nat, steps: seq<Step>, s: State)
    requires Reaches(capacity, steps, s) && !s.torn
    ensures Accounted(s)
  {
    ReachableInv(capacity, steps, s);
    InvAccounts(s);
  }

  /** So what was read is always a prefix of what was accepted. */
  lemma ReadIsAPrefix(capacity: nat, steps: seq<Step>, s: State)
    requires Reaches(capacity, steps, s) && !s.torn
    ensures s.read <= Flatten(s.accepted)
  {
    EveryByteAccountedFor(capacity, steps, s);
  }

  /** Message boundaries survive too: the reader's chunks are the non-empty accepted buffers, one by one. */
  lemma ChunksAreAcceptedBuffers(capacity: nat, steps: seq<Step>, s: State)
    requires Reaches(capacity, steps, s) && !s.torn
    ensures s.taken <= s.accepted
  {
    ReachableInv(capacity, steps, s);
    FirstOfFive(s.taken, s.queue, Optional(s.blocked), Expected(s).messages, Doomed(s.writer));
  }

  lemma FirstOfFive(a: seq<Bytes>, b: seq<Bytes>, c: seq<Bytes>, d: seq<Bytes>, e: seq<Bytes>)
    ensures a <= a + b + c + d + e
  {
    assert a <= a + b && a + b <= a + b + c && a + b + c <= a + b + c + d;
  }

  /** Backpressure: the receiver's queue never exceeds its capacity, torn or not. */
  lemma QueueStaysBounded(capacity: nat, steps: seq<Step>, s: State)
    requires Reaches(capacity, steps, s)
    ensures |s.queue| <= capacity
  {
    ReachableInv(capacity, steps, s);
  }

  // ----- A run at rest, and the end of the reader's session -----

  /** No send is in flight, and no step of the channel, the receiver or the reader changes anything. */
  ghost predicate AtRest(s: State)
    requires s.writer.Valid()
  {
    && s.writer.sending == None
    && forall step :: step != CloseReader && !step.WriterCall? && Enabled(s, step) ==> Next(s, step) == s
  }

  /** Each of these leaves something to do. */
  lemma StepsThatMove(s: State)
    requires s.writer.Valid()
    ensures s.chunk != [] ==> Enabled(s, Read(1)) && Next(s, Read(1)) != s
    ensures s.blocked == None && s.writer.session.wire != [] ==> Enabled(s, Deliver) && Next(s, Deliver) != s
    ensures s.blocked.Some? && |s.queue| < s.capacity ==> Enabled(s, Enqueue) && Next(s, Enqueue) != s
    ensures s.chunk == [] && s.queue != [] && !(s.readerClosed && s.recv == CheckingOpen) ==>
              Enabled(s, PollReader) && Next(s, PollReader) != s
  {
    if s.chunk != [] {
      assert |Next(s, Read(1)).chunk| < |s.chunk|;
    } else if s.queue != [] && !(s.readerClosed && s.recv == CheckingOpen) {
      assert |Next(s, PollReader).queue| < |s.queue|;
    }
    if s.blocked == None && s.writer.session.wire != [] {
      assert |Next(s, Deliver).writer.session.wire| < |s.writer.session.wire|;
    }
  }

  /** What keeps a resting stream from going on: a full queue, or the reader's closed session. */
  lemma RestMeans(s: State)
    requires s.writer.Valid() && AtRest(s)
    ensures s.chunk == [] && s.writer.Committed() == s.writer.session.wire && Doomed(s.writer) == []
    ensures s.blocked == None ==> s.writer.session.wire == []
    ensures s.blocked.Some? ==> |s.queue| >= s.capacity
    ensures s.queue != [] ==> s.readerClosed && s.recv == CheckingOpen
  {
    StepsThatMove(s);
  }

  lemma {:induction false} FlattenIsEmptyIff(parts: seq<Bytes>)
    requires forall p :: p in parts ==> p != []
    ensures Flatten(parts) == [] <==> parts == []
  {
    if parts != [] {
      assert parts[0] in parts;
    }
  }

  lemma AllReadIff(taken: seq<Bytes>, left: seq<Bytes>)
    requires forall m :: m in left ==> m != []
    ensures Flatten(taken + left) == Flatten(taken) <==> left == []
  {
    FlattenConcat(taken, left);
    FlattenIsEmptyIff(left);
    assert Flatten(taken) + [] == Flatten(taken);
  }

  lemma RegroupFive(a: seq<Bytes>, b: seq<Bytes>, c: seq<Bytes>, d: seq<Bytes>, e: seq<Bytes>)
    ensures a + b + c + d + e == a + (b + c + d + e)
  {
  }

  /** In a state of the invariant with nothing in the reader's hands, what it has not read. */
  lemma UnreadMessages(s: State) returns (left: seq<Bytes>)
    requires Inv(s) && !s.torn && s.chunk == []
    ensures left == s.queue + Optional(s.blocked) + Expected(s).messages + Doomed(s.writer)
    ensures s.read == Flatten(s.accepted) <==> left == []
  {
    var messages, doomed := Expected(s).messages, Doomed(s.writer);
    left := s.queue + Optional(s.blocked) + messages + doomed;
    RegroupFive(s.taken, s.queue, Optional(s.blocked), messages, doomed);
    assert s.accepted == s.taken + left;
    assert forall m :: m in left ==> m in s.accepted;
    AllReadIff(s.taken, left);
    assert s.read + [] == s.read;
  }

  /**
   * At rest, everything accepted has been read exactly when no message is left in the queue or in front of it. That
   * holds whenever the reader's session is open, or was closed while its `recv` is still waiting.
   */
  lemma RestMeansAllReadIff(capacity: nat, steps: seq<Step>, s: State)
    requires Reaches(capacity, steps, s) && !s.torn
    requires s.writer.Valid() && AtRest(s)
    ensures s.read == Flatten(s.accepted) <==> s.queue == [] && s.blocked == None
    ensures capacity > 0 && (!s.readerClosed || s.recv == Receiving) ==> s.queue == [] && s.blocked == None
  {
    ReachableInv(capacity, steps, s);
    RestMeans(s);
    var left := UnreadMessages(s);
  }

  /** After the reader's session closes at most one more message is taken, by a `recv` that was already waiting. */
  lemma {:induction false} ClosedReaderTakesAtMostOne(s: State, steps: seq<Step>, s': State)
    requires Follows(Anything, s, steps, s') && s.readerClosed
    ensures s'.readerClosed && s.taken <= s'.taken
    ensures |s'.taken| <= |s.taken| + if s.recv == Receiving then 1 else 0
    decreases |steps|
  {
    if steps != [] {
      ClosedReaderTakesAtMostOne(Next(s, steps[0]), steps[1..], s');
    }
  }

  /** One byte, accepted, delivered and queued when the reader's session closes. */
  function UnreadByte(b: u8): State {
    Init(1).(accepted := [[b]], queue := [[b]], readerClosed := true)
  }

  lemma OneByteQueued(b: u8, write: Call)
    requires write == Write([b], [], [Granted, Granted, Granted])
    ensures var written := Next(Init(1), WriterCall(write));
            && Enabled(written, Deliver)
            && Enabled(Next(written, Deliver), Enqueue)
            && Next(Next(written, Deliver), Enqueue) == UnreadByte(b).(readerClosed := false)
  {
    var env := write.envNew;
    assert env[1..] == [Granted, Granted] && env[2..] == [Granted];
    assert Grants(env[2..]) == 1 && Grants(env[1..]) == 2;
    var writer := Init(1).writer;
    WriteGoesOutAtOnce(writer, [b], [], env);
    var segments := Chunks([b]);
    assert segments[0] == MessageSegment(0, [b]) && |segments| == 1;
    assert PacketsOf([b]) == EncodeAll(segments);
    assert PacketsOf([b])[0] == Encode(segments[0]) == [0, b];
    var written := Next(Init(1), WriterCall(write));
    assert written.writer.session.wire == [[0, b]];
    assert [0, b] == Encode(segments[0]) && [] + [b] == [b];
    DecodeEncode(segments[0]);
  }

  /** Closing it then leaves the message unread for good: at rest the reader is told that the stream has ended. */
  lemma ClosedReaderLeavesUnread(b: u8) returns (steps: seq<Step>, s: State)
    ensures Reaches(1, steps, s) && !s.torn && s.writer.Valid() && AtRest(s)
    ensures RunNext(s.recv, s.readerClosed, s.queue).poll == Ready(None)
    ensures s.read == [] && Flatten(s.accepted) == [b]
  {
    var write := Write([b], [], [Granted, Granted, Granted]);
    OneByteQueued(b, write);
    s := UnreadByte(b);
    var written := Next(Init(1), WriterCall(write));
    var delivered := Next(written, Deliver);
    var queued := Next(delivered, Enqueue);
    steps := [CloseReader];
    assert steps[1..] == [] && Follows(Anything, queued, steps, s);
    steps := [Enqueue] + steps;
    assert steps[1..] == [CloseReader] && Follows(Anything, delivered, steps, s);
    steps := [Deliver] + steps;
    assert steps[1..] == [Enqueue, CloseReader] && Follows(Anything, written, steps, s);
    steps := [WriterCall(write)] + steps;
    assert steps[1..] == [Deliver, Enqueue, CloseReader];
    FlattenOne([b]);
  }
}
