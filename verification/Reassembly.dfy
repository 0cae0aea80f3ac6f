/**
 * What a `Message` does over a whole sequence of segments, against a specification that never mentions
 * its state: the input is cut into episodes, each delivered, broken off, or still open.
 */
module Reassembly {
  import opened Wrappers
  import opened Octets
  import opened Segments

  type Outcome = Result<Option<Bytes>>

  /** Feeds segments one by one; the final state and one outcome per segment. */
  function Feed(acc: Accumulator, segments: seq<MessageSegment>): (r: (Accumulator, seq<Outcome>))
    ensures |r.1| == |segments|
    decreases segments
  {
    if segments == [] then (acc, [])
    else
      var (next, outcome) := Add(acc, segments[0]);
      var (final, outcomes) := Feed(next, segments[1..]);
      (final, [outcome] + outcomes)
  }

  lemma {:induction false} FeedConcat(acc: Accumulator, left: seq<MessageSegment>, right: seq<MessageSegment>)
    ensures Feed(acc, left + right).0 == Feed(Feed(acc, left).0, right).0
    ensures Feed(acc, left + right).1 == Feed(acc, left).1 + Feed(Feed(acc, left).0, right).1
    decreases left
  {
    if left == [] {
      assert left + right == right;
    } else {
      var (next, outcome) := Add(acc, left[0]);
      FeedConcat(next, left[1..], right);
      ConcatHeadTail(left, right);
      ConcatAssoc([outcome], Feed(next, left[1..]).1, Feed(Feed(acc, left).0, right).1);
    }
  }

  lemma FeedSnoc(acc: Accumulator, segments: seq<MessageSegment>, last: MessageSegment)
    ensures var (before, outcomes) := Feed(acc, segments);
            var (after, outcome) := Add(before, last);
            Feed(acc, segments + [last]) == (after, outcomes + [outcome])
  {
    FeedConcat(acc, segments, [last]);
    var before := Feed(acc, segments).0;
    assert [last][1..] == [];
    assert Feed(before, [last]).1 == [Add(before, last).1];
  }

  // ----- The run specification -----

  ghost predicate Descends(run: seq<MessageSegment>) {
    forall i :: 0 <= i < |run| ==> run[i].remaining == run[0].remaining - i
  }

  /** Counters k, k-1, ..., 0. */
  ghost predicate IsBlock(run: seq<MessageSegment>) {
    run != [] && run[0].remaining == |run| - 1 && Descends(run)
  }

  /** A proper prefix of a block: its counters have not reached 0. */
  ghost predicate IsOpen(run: seq<MessageSegment>) {
    run == [] || (Descends(run) && |run| <= run[0].remaining)
  }

  function Awaited(run: seq<MessageSegment>): int
    requires run != []
  {
    run[0].remaining - |run|
  }

  /** A message opened by counter 255, which does not fit the counter of the accumulator. */
  predicate Wraps(run: seq<MessageSegment>) {
    |run| == 1 && run[0].remaining == 255
  }

  datatype Episode =
    | Delivered(block: seq<MessageSegment>)
    | Broken(run: seq<MessageSegment>, culprit: MessageSegment)
  {
    ghost predicate Valid() {
      match this
      case Delivered(block) => IsBlock(block)
      case Broken(run, culprit) => run != [] && IsOpen(run) && culprit.remaining != Awaited(run)
    }

    /** Broken off right after counter 255 opened it. */
    predicate Leaks() {
      Broken? && Wraps(run)
    }

    /** The input segments of the episode. A broken one drops its run and the culprit. */
    function Covered(): seq<MessageSegment> {
      match this
      case Delivered(block) => block
      case Broken(run, culprit) => run + [culprit]
    }

    function Outcomes(): seq<Outcome>
      requires Delivered? ==> block != []
    {
      match this
      case Delivered(block) => Waiting(|block| - 1) + [Ok(Some(Payload(block)))]
      case Broken(run, _) => Waiting(|run|) + [Err(MessageParse)]
    }
  }

  function Waiting(n: nat): (outcomes: seq<Outcome>)
    ensures |outcomes| == n
  {
    seq(n, _ => Ok(None))
  }

  ghost predicate AllValid(episodes: seq<Episode>) {
    forall e :: e in episodes ==> e.Valid()
  }

  function CoveredBy(episodes: seq<Episode>): seq<MessageSegment> {
    if episodes == [] then [] else episodes[0].Covered() + CoveredBy(episodes[1..])
  }

  ghost function OutcomesOf(episodes: seq<Episode>): seq<Outcome>
    requires AllValid(episodes)
  {
    if episodes == [] then [] else assert episodes[0].Valid(); episodes[0].Outcomes() + OutcomesOf(episodes[1..])
  }

  /** `segments` is exactly the episodes, in order, followed by an open run; nothing is lost or reordered. */
  ghost predicate Decomposes(episodes: seq<Episode>, open: seq<MessageSegment>, segments: seq<MessageSegment>) {
    AllValid(episodes) && IsOpen(open) && CoveredBy(episodes) + open == segments
  }

  /** The accumulator after an open run alone. */
  function StateAfter(open: seq<MessageSegment>): Accumulator
    requires open != [] ==> 0 <= Awaited(open) < U8_MAX
  {
    if open == [] then FRESH else Accumulator(if Wraps(open) then 0 else Awaited(open) + 1, Payload(open))
  }

  /** One more segment breaks, completes or extends an open run. */
  lemma ExtendOpen(open: seq<MessageSegment>, segment: MessageSegment)
    requires IsOpen(open)
    ensures if open != [] && segment.remaining != Awaited(open) then Broken(open, segment).Valid()
            else if segment.remaining == 0 then IsBlock(open + [segment])
            else IsOpen(open + [segment])
  {
    assert open == [] ==> open + [segment] == [segment];
  }

  /**
   * The state rule: which of these it is decides the answer and the next state, except that a run which counter 255
   * has just opened is never seen to break.
   */
  lemma AddToOpen(open: seq<MessageSegment>, segment: MessageSegment)
    requires IsOpen(open)
    ensures var (next, outcome) := Add(StateAfter(open), segment);
            if open != [] && segment.remaining != Awaited(open) then
              if Wraps(open) then outcome.Ok? else next == FRESH && outcome == Err(MessageParse)
            else if segment.remaining == 0 then
              next == FRESH && outcome == Ok(Some(Payload(open + [segment])))
            else
              IsOpen(open + [segment]) && next == StateAfter(open + [segment]) && outcome == Ok(None)
  {
    ExtendOpen(open, segment);
    PayloadSnoc(open, segment);
    assert open == [] ==> open + [segment] == [segment];
  }

  lemma {:induction false} FeedOpen(open: seq<MessageSegment>)
    requires IsOpen(open)
    ensures Feed(FRESH, open) == (StateAfter(open), Waiting(|open|))
  {
    if open != [] {
      var init, last := open[..|open| - 1], open[|open| - 1];
      assert open == init + [last];
      FeedOpen(init);
      FeedSnoc(FRESH, init, last);
      AddToOpen(init, last);
      assert Waiting(|open|) == Waiting(|init|) + [Ok(None)];
    }
  }

  lemma FeedEpisode(e: Episode)
    requires e.Valid() && !e.Leaks()
    ensures Feed(FRESH, e.Covered()) == (FRESH, e.Outcomes())
  {
    var all := e.Covered();
    var init, last := all[..|all| - 1], all[|all| - 1];
    assert all == init + [last];
    assert e.Broken? ==> init == e.run;
    FeedOpen(init);
    FeedSnoc(FRESH, init, last);
    AddToOpen(init, last);
  }

  lemma PeelEpisode(episodes: seq<Episode>, open: seq<MessageSegment>, segments: seq<MessageSegment>)
    returns (rest: seq<MessageSegment>)
    requires Decomposes(episodes, open, segments) && episodes != []
    ensures episodes[0].Valid() && segments == episodes[0].Covered() + rest
    ensures Decomposes(episodes[1..], open, rest)
    ensures OutcomesOf(episodes) == episodes[0].Outcomes() + OutcomesOf(episodes[1..])
  {
    rest := CoveredBy(episodes[1..]) + open;
    ConcatAssoc(episodes[0].Covered(), CoveredBy(episodes[1..]), open);
  }

  ghost predicate NoneLeaks(episodes: seq<Episode>) {
    forall e :: e in episodes ==> !e.Leaks()
  }

  /** Any decomposition without a leaking episode predicts every outcome and the final state. */
  lemma {:induction false} FeedFollowsDecomposition(
    episodes: seq<Episode>, open: seq<MessageSegment>, segments: seq<MessageSegment>)
    requires Decomposes(episodes, open, segments) && NoneLeaks(episodes)
    ensures Feed(FRESH, segments) == (StateAfter(open), OutcomesOf(episodes) + Waiting(|open|))
    decreases |episodes|
  {
    var outcomes, waiting := OutcomesOf(episodes), Waiting(|open|);
    if episodes == [] {
      FeedOpen(open);
      assert segments == open && outcomes + waiting == waiting;
    } else {
      var rest := PeelEpisode(episodes, open, segments);
      FeedFollowsDecomposition(episodes[1..], open, rest);
      FeedEpisode(episodes[0]);
      FeedConcat(FRESH, episodes[0].Covered(), rest);
      var first, tail := episodes[0].Outcomes(), OutcomesOf(episodes[1..]);
      ConcatAssoc(first, tail, waiting);
    }
  }

  lemma {:induction false} CoveredSnoc(episodes: seq<Episode>, e: Episode)
    ensures CoveredBy(episodes + [e]) == CoveredBy(episodes) + e.Covered()
  {
    if episodes == [] {
      assert episodes + [e] == [e];
    } else {
      CoveredSnoc(episodes[1..], e);
      assert (episodes + [e])[1..] == episodes[1..] + [e];
    }
  }

  lemma AppendEpisode(episodes: seq<Episode>, e: Episode, segments: seq<MessageSegment>)
    requires AllValid(episodes) && e.Valid() && segments == CoveredBy(episodes) + e.Covered()
    ensures Decomposes(episodes + [e], [], segments)
  {
    CoveredSnoc(episodes, e);
    assert segments + [] == segments;
  }

  lemma ExtendDecomposition(
    episodes: seq<Episode>, open: seq<MessageSegment>, segments: seq<MessageSegment>, last: MessageSegment)
    returns (episodes': seq<Episode>, open': seq<MessageSegment>)
    requires Decomposes(episodes, open, segments)
    ensures Decomposes(episodes', open', segments + [last])
  {
    ExtendOpen(open, last);
    assert segments + [last] == CoveredBy(episodes) + (open + [last]);
    if open != [] && last.remaining != Awaited(open) {
      AppendEpisode(episodes, Broken(open, last), segments + [last]);
      return episodes + [Broken(open, last)], [];
    } else if last.remaining == 0 {
      AppendEpisode(episodes, Delivered(open + [last]), segments + [last]);
      return episodes + [Delivered(open + [last])], [];
    } else {
      return episodes, open + [last];
    }
  }

  /** Every input can be cut into episodes and an open run. */
  lemma {:induction false} Decompose(segments: seq<MessageSegment>)
    returns (episodes: seq<Episode>, open: seq<MessageSegment>)
    ensures Decomposes(episodes, open, segments)
  {
    if segments == [] {
      return [], [];
    }
    var init, last := segments[..|segments| - 1], segments[|segments| - 1];
    episodes, open := Decompose(init);
    episodes, open := ExtendDecomposition(episodes, open, init, last);
    assert segments == init + [last];
  }

  /** An episode told from the segments that it covers. */
  lemma EpisodeShape(e: Episode)
    requires e.Valid()
    ensures var c, last := e.Covered(), |e.Covered()| - 1;
            && last >= 0
            && (forall i :: 0 <= i < last ==> c[i].remaining == c[0].remaining - i)
            && last <= c[0].remaining
            && (e.Delivered? ==> e.block == c && c[0].remaining == last && c[last].remaining == 0)
            && (e.Broken? ==> last > 0 && e.run == c[..last] && e.culprit == c[last]
                              && c[last].remaining != c[0].remaining - last)
  {
    if e.Broken? {
      assert e.Covered()[..|e.run|] == e.run && e.Covered()[|e.run|] == e.culprit;
    }
  }

  /** Two episodes that begin the same input are the same. */
  lemma FirstEpisodeUnique(e: Episode, e': Episode, segments: seq<MessageSegment>)
    requires e.Valid() && e'.Valid() && e.Covered() <= segments && e'.Covered() <= segments
    requires |e.Covered()| <= |e'.Covered()|
    ensures e == e'
  {
    EpisodeShape(e);
    EpisodeShape(e');
    var c, c' := e.Covered(), e'.Covered();
    assert forall i :: 0 <= i < |c| ==> c[i] == c'[i];
    assert |c| == |c'|;
    assert c == c';
  }

  /** An open run holds no whole episode. */
  lemma OpenHoldsNoEpisode(e: Episode, open: seq<MessageSegment>)
    requires e.Valid() && IsOpen(open)
    ensures !(e.Covered() <= open)
  {
    var covered := e.Covered();
    if |covered| <= |open| {
      match e
      case Delivered(block) => assert open[0] != covered[0];
      case Broken(run, culprit) => assert open[0] == covered[0] ==> open[|run|] != covered[|run|];
    }
  }

  lemma FirstsAgree(
    episodes: seq<Episode>, open: seq<MessageSegment>,
    episodes': seq<Episode>, open': seq<MessageSegment>, segments: seq<MessageSegment>)
    returns (rest: seq<MessageSegment>)
    requires Decomposes(episodes, open, segments) && Decomposes(episodes', open', segments)
    requires episodes != [] && episodes' != []
    ensures episodes[0] == episodes'[0]
    ensures Decomposes(episodes[1..], open, rest) && Decomposes(episodes'[1..], open', rest)
  {
    rest := PeelEpisode(episodes, open, segments);
    var rest' := PeelEpisode(episodes', open', segments);
    var e, e' := episodes[0], episodes'[0];
    if |e.Covered()| <= |e'.Covered()| {
      FirstEpisodeUnique(e, e', segments);
    } else {
      FirstEpisodeUnique(e', e, segments);
    }
    assert rest == segments[|e.Covered()|..] == rest';
  }

  lemma NothingAgrees(
    open: seq<MessageSegment>, episodes: seq<Episode>, open': seq<MessageSegment>, segments: seq<MessageSegment>)
    requires Decomposes([], open, segments) && Decomposes(episodes, open', segments)
    ensures episodes == [] && open == open'
  {
    assert [] + open == open && [] + open' == open';
    if episodes != [] {
      var rest := PeelEpisode(episodes, open', segments);
      OpenHoldsNoEpisode(episodes[0], open);
    }
  }

  /** The cut is unique, so what it predicts is a function of the input. */
  lemma {:induction false} DecompositionIsUnique(
    episodes: seq<Episode>, open: seq<MessageSegment>,
    episodes': seq<Episode>, open': seq<MessageSegment>, segments: seq<MessageSegment>)
    requires Decomposes(episodes, open, segments) && Decomposes(episodes', open', segments)
    ensures episodes == episodes' && open == open'
    decreases |episodes|
  {
    if episodes == [] {
      NothingAgrees(open, episodes', open', segments);
    } else if episodes' == [] {
      NothingAgrees(open', episodes, open, segments);
    } else {
      var rest := FirstsAgree(episodes, open, episodes', open', segments);
      DecompositionIsUnique(episodes[1..], open, episodes'[1..], open', rest);
      assert episodes == [episodes[0]] + episodes[1..] && episodes' == [episodes'[0]] + episodes'[1..];
    }
  }

  /** A leaking episode should end in an error, and the code reports none. */
  lemma LeakIsNotReported(e: Episode, rest: seq<MessageSegment>)
    requires e.Valid() && e.Leaks()
    ensures |e.Outcomes()| == 2 && e.Outcomes()[1].Err? && Feed(FRESH, e.Covered() + rest).1[1].Ok?
  {
    FeedOpen(e.run);
    FeedConcat(FRESH, e.Covered(), rest);
    FeedSnoc(FRESH, e.run, e.culprit);
    AddToOpen(e.run, e.culprit);
  }

  /** What a decomposition predicts. */
  ghost function Predicted(episodes: seq<Episode>, open: seq<MessageSegment>): seq<Outcome>
    requires AllValid(episodes)
  {
    OutcomesOf(episodes) + Waiting(|open|)
  }

  /** Some predicted error is not reported. */
  ghost predicate Departs(predicted: seq<Outcome>, answers: seq<Outcome>) {
    exists i :: 0 <= i < |predicted| && i < |answers| && predicted[i].Err? && answers[i].Ok?
  }

  lemma DepartsLater(first: seq<Outcome>, predicted: seq<Outcome>, answers: seq<Outcome>)
    requires Departs(predicted, answers)
    ensures Departs(first + predicted, first + answers)
  {
    var i :| 0 <= i < |predicted| && i < |answers| && predicted[i].Err? && answers[i].Ok?;
    assert (first + predicted)[|first| + i] == predicted[i] && (first + answers)[|first| + i] == answers[i];
  }

  lemma {:induction false} LeakDeparts(
    episodes: seq<Episode>, open: seq<MessageSegment>, segments: seq<MessageSegment>)
    requires Decomposes(episodes, open, segments) && !NoneLeaks(episodes)
    ensures Departs(Predicted(episodes, open), Feed(FRESH, segments).1)
    decreases |episodes|
  {
    var e := episodes[0];
    var rest := PeelEpisode(episodes, open, segments);
    ConcatAssoc(e.Outcomes(), OutcomesOf(episodes[1..]), Waiting(|open|));
    if e.Leaks() {
      LeakIsNotReported(e, rest);
      assert Predicted(episodes, open)[1] == e.Outcomes()[1];
    } else {
      LeakDeparts(episodes[1..], open, rest);
      FeedEpisode(e);
      FeedConcat(FRESH, e.Covered(), rest);
      DepartsLater(e.Outcomes(), Predicted(episodes[1..], open), Feed(FRESH, rest).1);
    }
  }

  /**
   * The run specification, on every input: the answers are exactly those that the cut predicts if and only if no
   * message is broken off right after counter 255 opened it.
   */
  lemma RunSpecificationHoldsIff(
    episodes: seq<Episode>, open: seq<MessageSegment>, segments: seq<MessageSegment>)
    requires Decomposes(episodes, open, segments)
    ensures Feed(FRESH, segments).1 == Predicted(episodes, open) <==> NoneLeaks(episodes)
  {
    if NoneLeaks(episodes) {
      FeedFollowsDecomposition(episodes, open, segments);
    } else {
      LeakDeparts(episodes, open, segments);
    }
  }

  /** A leak: the specification has an error here, the code delivers the data of two messages as one. */
  lemma Counter255Leaks()
    ensures var segments := [MessageSegment(255, [1]), MessageSegment(0, [2])];
            && Decomposes([Broken(segments[..1], segments[1])], [], segments)
            && Feed(FRESH, segments) == (FRESH, [Ok(None), Ok(Some([1, 2]))])
  {
    var first, second := MessageSegment(255, [1]), MessageSegment(0, [2]);
    var wrapped := Add(FRESH, first).0;
    assert wrapped.expected == 0 && wrapped.data == [1];
    assert wrapped.data + second.data == [1, 2];
    assert [first, second][1..] == [second] && [second][1..] == [];
    assert Feed(wrapped, [second]).1 == [Ok(Some([1, 2]))];
    assert Feed(FRESH, [first, second]).1 == [Ok(None), Ok(Some([1, 2]))];
    var episode := Broken([first], second);
    assert [first, second][..1] == [first] && [episode][1..] == [];
    assert CoveredBy([episode]) + [] == [first, second];
  }

  /** An idle accumulator holds no data, and the wrap is the only step that breaks this. */
  lemma IdleIsEmptyIff(acc: Accumulator, segment: MessageSegment)
    requires acc.expected == 0 ==> acc.data == []
    ensures var next := Add(acc, segment).0;
            (next.expected == 0 ==> next.data == [])
            <==> !(acc.expected == 0 && segment.remaining == 255 && segment.data != [])
  {
  }

  // ----- The reserved size -----

  lemma {:induction false} PayloadBound(run: seq<MessageSegment>)
    requires forall s :: s in run ==> |s.data| <= MAX_MESSAGE_SIZE
    ensures |Payload(run)| <= |run| * MAX_MESSAGE_SIZE
  {
    if run != [] {
      PayloadBound(run[1..]);
    }
  }

  /**
   * The room for a message once its counter has been set: what was buffered then, and a full segment for each one
   * expected then. Counter 255 sets nothing; the counter is set by the segment after it.
   */
  function Room(first: MessageSegment): nat {
    if first.remaining == 255 then |first.data| + 255 * MAX_MESSAGE_SIZE else (first.remaining + 1) * MAX_MESSAGE_SIZE
  }

  /** The message opened at `start` is still open and, with a full segment for each one expected, fits its room. */
  ghost predicate FitsReserve(segments: seq<MessageSegment>, start: nat, acc: Accumulator) {
    && start < |segments|
    && Feed(FRESH, segments[..start]).0 == FRESH
    && acc.data == Payload(segments[start..])
    && |acc.data| + acc.expected * MAX_MESSAGE_SIZE <= Room(segments[start])
  }

  /**
   * While a message is open, what is buffered plus a full segment for each one still expected
   * fits in the room reserved for it.
   */
  lemma ReserveSuffices(episodes: seq<Episode>, open: seq<MessageSegment>, segments: seq<MessageSegment>)
    requires Decomposes(episodes, open, segments) && NoneLeaks(episodes)
    requires forall s :: s in segments ==> |s.data| <= MAX_MESSAGE_SIZE
    ensures var acc := Feed(FRESH, segments).0;
            acc.expected > 0 ==> FitsReserve(segments, |CoveredBy(episodes)|, acc)
  {
    FeedFollowsDecomposition(episodes, open, segments);
    if open != [] {
      var before := CoveredBy(episodes);
      FeedFollowsDecomposition(episodes, [], before);
      assert before == before + [] == segments[..|before|] && open == segments[|before|..];
      PayloadBound(open);
      PayloadBound(open[1..]);
    }
  }

  // ----- Split, then reassemble -----

  lemma ChunksAreABlock(data: Bytes)
    requires Splittable(data)
    ensures Delivered(Chunks(data)).Valid() && Payload(Chunks(data)) == data
    ensures Feed(FRESH, Chunks(data)) == (FRESH, Waiting(|Chunks(data)| - 1) + [Ok(Some(data))])
  {
    SplitShape(data);
    FeedEpisode(Delivered(Chunks(data)));
  }

  function DecodeAll(packets: seq<Bytes>): Result<seq<MessageSegment>> {
    if packets == [] then Ok([])
    else
      var segment :- Decode(packets[0]);
      var rest :- DecodeAll(packets[1..]);
      Ok([segment] + rest)
  }

  ghost predicate Sendable(messages: seq<Bytes>) {
    forall m :: m in messages ==> m != [] && Splittable(m)
  }

  ghost function ConversationSegments(messages: seq<Bytes>): seq<MessageSegment>
    requires Sendable(messages)
  {
    if messages == [] then []
    else
      assert Splittable(messages[0]);
      Chunks(messages[0]) + ConversationSegments(messages[1..])
  }

  /** One message per input, in order, each announced only by its last segment. */
  ghost function ConversationOutcomes(messages: seq<Bytes>): seq<Outcome>
    requires Sendable(messages)
  {
    if messages == [] then []
    else Waiting(SegmentCount(|messages[0]|) - 1) + [Ok(Some(messages[0]))] + ConversationOutcomes(messages[1..])
  }

  lemma {:induction false} DecodeAllEncoded(segments: seq<MessageSegment>)
    requires forall s :: s in segments ==> s.data != []
    ensures DecodeAll(EncodeAll(segments)) == Ok(segments)
  {
    if segments != [] {
      var packets := EncodeAll(segments);
      DecodeEncode(segments[0]);
      DecodeAllEncoded(segments[1..]);
      assert packets[1..] == EncodeAll(segments[1..]);
      assert segments == [segments[0]] + segments[1..];
    }
  }

  lemma {:induction false} ConversationFeeds(messages: seq<Bytes>)
    requires Sendable(messages)
    ensures Feed(FRESH, ConversationSegments(messages)) == (FRESH, ConversationOutcomes(messages))
    ensures forall s :: s in ConversationSegments(messages) ==> s.data != []
  {
    if messages != [] {
      SplitShape(messages[0]);
      ChunksAreABlock(messages[0]);
      ConversationFeeds(messages[1..]);
      FeedConcat(FRESH, Chunks(messages[0]), ConversationSegments(messages[1..]));
    }
  }

  /**
   * A whole conversation of non-empty messages, split, encoded, decoded and fed to one accumulator,
   * comes out as exactly those messages, with no error.
   */
  lemma ConversationRoundTrip(messages: seq<Bytes>)
    requires Sendable(messages)
    ensures var received := DecodeAll(EncodeAll(ConversationSegments(messages)));
            received.Ok? && Feed(FRESH, received.value) == (FRESH, ConversationOutcomes(messages))
  {
    ConversationFeeds(messages);
    DecodeAllEncoded(ConversationSegments(messages));
  }
}
