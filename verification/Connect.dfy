/** The candidate buffering of `NethernetStream::connect` (src/transport/stream.rs). */
module Connect {
  import opened Wrappers
  import opened Octets
  import opened Utf8
  import opened Signals

  datatype CandidateInit = CandidateInit(
    candidate: Str, sdpMid: Option<Str>, sdpMLineIndex: Option<u16>, usernameFragment: Option<Str>)

  /** JSON if the data parses as such, else the raw string; the JSON parser is a parameter. */
  function InitOf(parseJson: Str -> Option<CandidateInit>, data: Str): CandidateInit {
    var parsed := parseJson(data);
    if parsed.Some? then parsed.value else CandidateInit(data, None, None, None)
  }

  /** Calls made on the peer connection. */
  datatype Action = SetRemoteDescription(answer: Str) | AddIceCandidate(init: CandidateInit)

  // ----- Specification -----

  predicate IsCandidate(s: Signal, connectionId: u64) {
    s.connectionId == connectionId && s.kind == Candidate
  }

  /** The candidates of one connection in a signal stream, in order. */
  function CandidatesIn(signals: seq<Signal>, connectionId: u64): seq<Signal> {
    if signals == [] then []
    else (if IsCandidate(signals[0], connectionId) then [signals[0]] else []) + CandidatesIn(signals[1..], connectionId)
  }

  function Attempts(parseJson: Str -> Option<CandidateInit>, candidates: seq<Signal>): seq<Action> {
    seq(|candidates|, i requires 0 <= i < |candidates| => AddIceCandidate(InitOf(parseJson, candidates[i].data)))
  }

  ghost predicate IsAnswer(s: Signal, connectionId: u64) {
    s.connectionId == connectionId && s.kind == Answer
  }

  /** Signal `i` is the first answer of the connection. */
  ghost predicate FirstAnswer(signals: seq<Signal>, connectionId: u64, i: nat) {
    && i < |signals| && IsAnswer(signals[i], connectionId)
    && forall j :: 0 <= j < i ==> !IsAnswer(signals[j], connectionId)
  }

  lemma FirstAnswerUnique(signals: seq<Signal>, connectionId: u64, i: nat, j: nat)
    requires FirstAnswer(signals, connectionId, i) && FirstAnswer(signals, connectionId, j)
    ensures i == j
  {
    assert !(i < j) && !(j < i);
  }

  lemma {:induction false} CandidatesConcat(left: seq<Signal>, right: seq<Signal>, connectionId: u64)
    ensures CandidatesIn(left + right, connectionId)
            == CandidatesIn(left, connectionId) + CandidatesIn(right, connectionId)
  {
    if left == [] {
      assert left + right == right;
    } else {
      CandidatesConcat(left[1..], right, connectionId);
      ConcatHeadTail(left, right);
      ConcatAssoc(if IsCandidate(left[0], connectionId) then [left[0]] else [],
                  CandidatesIn(left[1..], connectionId), CandidatesIn(right, connectionId));
    }
  }

  lemma CandidatesUpTo(signals: seq<Signal>, i: nat, connectionId: u64)
    requires i < |signals|
    ensures CandidatesIn(signals[..i + 1], connectionId)
            == CandidatesIn(signals[..i], connectionId)
               + (if IsCandidate(signals[i], connectionId) then [signals[i]] else [])
  {
    var one := [signals[i]];
    assert signals[..i + 1] == signals[..i] + one && one[1..] == [];
    CandidatesConcat(signals[..i], one, connectionId);
  }

  /** The candidates are this connection's candidate signals, each at the place that those before it leave. */
  lemma {:induction false} CandidatesAre(signals: seq<Signal>, connectionId: u64)
    ensures forall c :: c in CandidatesIn(signals, connectionId) ==>
              c in signals && c.kind == Candidate && c.connectionId == connectionId
    ensures forall i ::
              0 <= i < |signals| && signals[i].kind == Candidate && signals[i].connectionId == connectionId ==>
              var before := CandidatesIn(signals[..i], connectionId);
              before + [signals[i]] <= CandidatesIn(signals, connectionId)
  {
    if signals != [] {
      var last := |signals| - 1;
      CandidatesAre(signals[..last], connectionId);
      CandidatesUpTo(signals, last, connectionId);
      assert signals[..last + 1] == signals;
      assert forall i :: 0 <= i < last ==> signals[..last][i] == signals[i] && signals[..last][..i] == signals[..i];
    }
  }

  /** What is attempted by the time `k` signals have been consumed is a prefix of all the connection's candidates. */
  lemma AttemptsAreAPrefix(signals: seq<Signal>, k: nat, connectionId: u64, parseJson: Str -> Option<CandidateInit>)
    requires k <= |signals|
    ensures Attempts(parseJson, CandidatesIn(signals[..k], connectionId))
            <= Attempts(parseJson, CandidatesIn(signals, connectionId))
  {
    assert signals == signals[..k] + signals[k..];
    CandidatesConcat(signals[..k], signals[k..], connectionId);
  }

  /** An attempt with what the data parses to as JSON, or else with the data itself and nothing more. */
  predicate IsAttempt(action: Action, parseJson: Str -> Option<CandidateInit>, data: Str) {
    && action.AddIceCandidate?
    && match parseJson(data)
       case Some(init) => action.init == init
       case None =>
         && action.init.candidate == data && action.init.sdpMid == None
         && action.init.sdpMLineIndex == None && action.init.usernameFragment == None
  }

  /** The remote answer, then one attempt for each candidate. */
  ghost predicate IsLog(
    log: seq<Action>, parseJson: Str -> Option<CandidateInit>, answer: Str, candidates: seq<Signal>)
  {
    && |log| == 1 + |candidates| && log[0] == SetRemoteDescription(answer)
    && forall j :: 0 <= j < |candidates| ==> IsAttempt(log[1 + j], parseJson, candidates[j].data)
  }

  lemma LogOfAttempts(parseJson: Str -> Option<CandidateInit>, answer: Str, candidates: seq<Signal>)
    ensures IsLog([SetRemoteDescription(answer)] + Attempts(parseJson, candidates), parseJson, answer, candidates)
  {
    var log := [SetRemoteDescription(answer)] + Attempts(parseJson, candidates);
    forall j | 0 <= j < |candidates|
      ensures IsAttempt(log[1 + j], parseJson, candidates[j].data)
    {
      assert log[1 + j] == Attempts(parseJson, candidates)[j];
    }
  }

  // ----- The two loops -----

  predicate Buffers(parseJson: Str -> Option<CandidateInit>, candidates: seq<Signal>, pending: seq<CandidateInit>) {
    |pending| == |candidates| && forall j :: 0 <= j < |pending| ==> pending[j] == InitOf(parseJson, candidates[j].data)
  }

  /** The loop before the answer: candidates are only buffered. It ends with the stream if no answer comes. */
  method WaitForAnswer(signals: seq<Signal>, connectionId: u64, parseJson: Str -> Option<CandidateInit>)
    returns (answered: Option<nat>, pending: seq<CandidateInit>)
    ensures answered == None <==> forall i: nat :: !FirstAnswer(signals, connectionId, i)
    ensures answered.Some? ==> FirstAnswer(signals, connectionId, answered.value)
    ensures answered.Some? ==>
              signals[answered.value].kind == Answer && signals[answered.value].connectionId == connectionId
    ensures answered.Some? ==> Buffers(parseJson, CandidatesIn(signals[..answered.value], connectionId), pending)
  {
    pending := [];
    var i := 0;
    assert signals[..0] == [];
    while i < |signals|
      invariant i <= |signals|
      invariant forall j :: 0 <= j < i ==> !IsAnswer(signals[j], connectionId)
      invariant Buffers(parseJson, CandidatesIn(signals[..i], connectionId), pending)
    {
      var signal := signals[i];
      CandidatesUpTo(signals, i, connectionId);
      if signal.connectionId == connectionId {
        match signal.kind {
          case Answer =>
            assert FirstAnswer(signals, connectionId, i);
            return Some(i), pending;
          case Candidate => pending := pending + [InitOf(parseJson, signal.data)];
          case _ =>
        }
      }
      i := i + 1;
    }
    return None, pending;
  }

  /** The buffered candidates, applied one by one. */
  method ApplyPending(pending: seq<CandidateInit>) returns (log: seq<Action>)
    ensures |log| == |pending| && forall j :: 0 <= j < |log| ==> log[j] == AddIceCandidate(pending[j])
  {
    log := [];
    for j := 0 to |pending|
      invariant |log| == j && forall k :: 0 <= k < j ==> log[k] == AddIceCandidate(pending[k])
    {
      log := log + [AddIceCandidate(pending[j])];
    }
  }

  /** The candidate task: every further candidate is added as it comes. */
  method ProcessCandidates(
    signals: seq<Signal>, start: nat, end: nat, connectionId: u64, parseJson: Str -> Option<CandidateInit>)
    returns (log: seq<Action>)
    requires start <= end <= |signals|
    ensures Attempts(parseJson, CandidatesIn(signals[..start], connectionId)) + log
            == Attempts(parseJson, CandidatesIn(signals[..end], connectionId))
  {
    log := [];
    var i := start;
    while i < end
      invariant start <= i <= end
      invariant Attempts(parseJson, CandidatesIn(signals[..start], connectionId)) + log
                == Attempts(parseJson, CandidatesIn(signals[..i], connectionId))
    {
      var signal := signals[i];
      CandidatesUpTo(signals, i, connectionId);
      if signal.connectionId == connectionId && signal.kind == Candidate {
        AttemptsSnoc(parseJson, CandidatesIn(signals[..i], connectionId), signal);
        log := log + [AddIceCandidate(InitOf(parseJson, signal.data))];
      }
      i := i + 1;
    }
  }

  lemma AttemptsSnoc(parseJson: Str -> Option<CandidateInit>, candidates: seq<Signal>, last: Signal)
    ensures Attempts(parseJson, candidates + [last])
            == Attempts(parseJson, candidates) + [AddIceCandidate(InitOf(parseJson, last.data))]
  {
  }

  /**
   * `connect` from its first signal to the end of its candidate task, which stops after `more` further signals.
   * `accepts` says whether the peer connection takes the answer. Nothing is added before the remote answer is
   * set; then every candidate of the signals consumed is attempted, once and in order, those buffered included.
   */
  method Negotiate(
    signals: seq<Signal>, connectionId: u64, parseJson: Str -> Option<CandidateInit>, accepts: Str -> bool, more: nat)
    returns (log: seq<Action>, r: Result<()>)
    ensures r == Err(Timeout) <==> forall i: nat :: !FirstAnswer(signals, connectionId, i)
    ensures r.Err? ==> log == []
    ensures forall i: nat :: FirstAnswer(signals, connectionId, i) ==>
              if !accepts(signals[i].data) then r == Err(WebRtc)
              else
                var k := if i + 1 + more <= |signals| then i + 1 + more else |signals|;
                var candidates := CandidatesIn(signals[..k], connectionId);
                && r == Ok(()) && log == [SetRemoteDescription(signals[i].data)] + Attempts(parseJson, candidates)
                && IsLog(log, parseJson, signals[i].data, candidates)
  {
    var waited, pending := WaitForAnswer(signals, connectionId, parseJson);
    if waited == None {
      return [], Err(Timeout);
    }
    var answered := waited.value;
    forall i: nat | FirstAnswer(signals, connectionId, i)
      ensures i == answered
    {
      FirstAnswerUnique(signals, connectionId, i, answered);
    }
    if !accepts(signals[answered].data) {
      return [], Err(WebRtc);
    }
    log := [SetRemoteDescription(signals[answered].data)];
    var buffered := ApplyPending(pending);
    CandidatesUpTo(signals, answered, connectionId);
    assert buffered == Attempts(parseJson, CandidatesIn(signals[..answered + 1], connectionId));
    var end := if answered + 1 + more <= |signals| then answered + 1 + more else |signals|;
    var later := ProcessCandidates(signals, answered + 1, end, connectionId, parseJson);
    LogOfAttempts(parseJson, signals[answered].data, CandidatesIn(signals[..end], connectionId));
    return log + (buffered + later), Ok(());
  }
}
