/**
 * The listener's tasks as one transition system: the signal loop, and for each accepted offer its candidate task,
 * its data-channel handlers and the task that enqueues its session (src/transport/listener.rs). Offers carry
 * distinct connection ids.
 */
module Listener {
  import opened Wrappers
  import opened Octets
  import opened Signals
  import opened Connect
  import Ready

  /** The first-candidate oneshot, from its receiver's side. */
  datatype Notice = Unsent | Notified | Dropped

  /** The task that enqueues the session; it starts once the offer has been handled. */
  datatype Waiter = NotStarted | AwaitingCandidate | AwaitingReady | Enqueued(timedOut: bool)

  /**
   * Where a connection's candidate task is: in its receive loop; with its first candidate added, about to take the
   * notifiers' lock; after the loop, about to take that lock; done.
   */
  datatype Task = Looping | Notifying | CleaningUp | Done

  /**
   * One connection. `since` is how many signals had been received with its offer; `inbox` is its dispatch channel;
   * `attempted` records the candidates passed to add_ice_candidate; `added` is `!first_candidate`.
   */
  datatype Connection = Connection(
    since: nat,
    inbox: seq<Signal>,
    attempted: seq<Signal>,
    added: bool,
    task: Task,
    notice: Notice,
    waiter: Waiter,
    channels: Ready.Channels)

  datatype State = State(
    connections: map<u64, Connection>,
    dispatchers: set<u64>,
    notifiers: set<u64>,
    handling: Option<u64>,
    received: seq<Signal>,
    incoming: seq<u64>)

  const BOUND := State(map[], {}, {}, None, [], [])

  datatype Step =
    | Receive(signal: Signal)
    | RefuseOffer(signal: Signal)
    | FinishOffer(ok: bool)
    | TakeSignal(id: u64, accepted: bool)
    | NotifyFirst(id: u64)
    | EndLoop(id: u64)
    | CleanUp(id: u64)
    | PeerGone(id: u64)
    | ChannelStep(id: u64, step: Ready.Step)
    | CandidateNoticed(id: u64)
    | ReadyNoticed(id: u64)
    | WaiterTimeout(id: u64)

  predicate Enabled(s: State, step: Step) {
    match step
    case Receive(signal) => s.handling == None && (signal.kind == Offer ==> signal.connectionId !in s.connections)
    case RefuseOffer(signal) => s.handling == None && signal.kind == Offer
    case FinishOffer(_) => s.handling.Some? && s.handling.value in s.connections
    case TakeSignal(id, _) => IsAt(s, id, Looping) && s.connections[id].inbox != []
    case NotifyFirst(id) => IsAt(s, id, Notifying)
    case EndLoop(id) => IsAt(s, id, Looping) && s.connections[id].inbox == [] && id !in s.dispatchers
    case CleanUp(id) => IsAt(s, id, CleaningUp)
    case PeerGone(id) => id in s.connections
    case ChannelStep(id, step) => id in s.connections && Ready.Enabled(s.connections[id].channels, step)
    case CandidateNoticed(id) => IsWaiting(s, id, AwaitingCandidate) && s.connections[id].notice != Unsent
    case ReadyNoticed(id) => IsWaiting(s, id, AwaitingReady) && s.connections[id].channels.fired > 0
    case WaiterTimeout(id) => IsWaiting(s, id, AwaitingCandidate) || IsWaiting(s, id, AwaitingReady)
  }

  predicate IsAt(s: State, id: u64, task: Task) {
    id in s.connections && s.connections[id].task == task
  }

  predicate IsWaiting(s: State, id: u64, waiter: Waiter) {
    id in s.connections && s.connections[id].waiter == waiter
  }

  function Update(s: State, id: u64, c: Connection): State {
    s.(connections := s.connections[id := c])
  }

  function Next(s: State, step: Step): State
    requires Enabled(s, step)
  {
    match step
    case Receive(signal) => Received(s, signal)
    case RefuseOffer(signal) => s.(received := s.received + [signal])
    case FinishOffer(ok) =>
      var id := s.handling.value;
      var c := s.connections[id];
      Update(s, id, if ok then c.(waiter := AwaitingCandidate) else c).(handling := None)
    case TakeSignal(id, accepted) => Taken(s, id, accepted)
    case NotifyFirst(id) => Settled(s, id, Looping, Notified)
    case EndLoop(id) => Update(s, id, s.connections[id].(task := CleaningUp))
    case CleanUp(id) => Settled(s, id, Done, Dropped)
    case PeerGone(id) => s.(dispatchers := s.dispatchers - {id})
    case ChannelStep(id, step) =>
      var c := s.connections[id];
      Update(s, id, c.(channels := Ready.Next(c.channels, step)))
    case CandidateNoticed(id) => Update(s, id, s.connections[id].(waiter := AwaitingReady))
    case ReadyNoticed(id) => Enqueue(s, id, false)
    case WaiterTimeout(id) => Enqueue(s, id, true)
  }

  function Enqueue(s: State, id: u64, timedOut: bool): State
    requires id in s.connections
  {
    Update(s, id, s.connections[id].(waiter := Enqueued(timedOut))).(incoming := s.incoming + [id])
  }

  /** Under the notifiers' lock the sender is removed, if it is still there, and sent through or dropped. */
  function Settled(s: State, id: u64, task: Task, notice: Notice): State
    requires id in s.connections
  {
    var c := s.connections[id];
    Update(s, id, c.(task := task, notice := if id in s.notifiers then notice else c.notice))
      .(notifiers := s.notifiers - {id})
  }

  /** The signal loop: an offer registers its connection, anything else goes to its connection's channel, if any. */
  function Received(s: State, signal: Signal): State
    requires signal.kind == Offer ==> signal.connectionId !in s.connections
  {
    var id, received := signal.connectionId, s.received + [signal];
    if signal.kind == Offer then
      var c := Connection(|received|, [], [], false, Looping, Unsent, NotStarted, Ready.NO_CHANNELS);
      Update(s, id, c).(received := received, dispatchers := s.dispatchers + {id},
                        notifiers := s.notifiers + {id}, handling := Some(id))
    else if id in s.dispatchers && id in s.connections then
      Update(s, id, s.connections[id].(inbox := s.connections[id].inbox + [signal])).(received := received)
    else s.(received := received)
  }

  /** The first candidate to be added is the one that notifies. */
  predicate IsFirst(c: Connection, accepted: bool)
    requires c.inbox != []
  {
    accepted && !c.added && c.inbox[0].kind == Candidate
  }

  /** One turn of a candidate task's loop, up to the notifiers' lock. */
  function Taken(s: State, id: u64, accepted: bool): State
    requires id in s.connections && s.connections[id].inbox != []
  {
    var c := s.connections[id];
    Update(s, id, c.(inbox := c.inbox[1..],
                     attempted := if c.inbox[0].kind == Candidate then c.attempted + [c.inbox[0]] else c.attempted,
                     added := c.added || IsFirst(c, accepted),
                     task := if IsFirst(c, accepted) then Notifying else c.task))
  }

  ghost predicate Reaches(steps: seq<Step>, s: State) {
    if steps == [] then s == BOUND
    else
      var last := |steps| - 1;
      exists before :: Reaches(steps[..last], before) && Enabled(before, steps[last]) && s == Next(before, steps[last])
  }

  // ----- The invariant, connection by connection -----

  predicate InLoop(c: Connection) {
    c.task == Looping || c.task == Notifying
  }

  /**
   * Routing: what was attempted, then what is waiting, is a prefix of the candidates received for `id` since its
   * offer, and all of them while the connection is dispatching.
   */
  ghost predicate Routed(c: Connection, id: u64, received: seq<Signal>, dispatching: bool) {
    && c.since <= |received|
    && (forall g :: g in c.inbox ==> g.connectionId == id)
    && var handed, all := c.attempted + CandidatesIn(c.inbox, id), CandidatesIn(received[c.since..], id);
       handed <= all && (dispatching ==> InLoop(c) && handed == all)
  }

  /**
   * The oneshot is unsent while its sender is registered; it has been sent exactly when a candidate has been added and
   * the task has been at the lock since.
   */
  ghost predicate NoticeTracked(c: Connection, pending: bool) {
    && (c.notice == Unsent <==> pending)
    && (c.notice == Notified <==> c.added && c.task != Notifying)
    && (c.notice == Dropped ==> c.task == Done)
    && (c.task == Notifying ==> c.added)
    && (c.task == Done ==> !pending)
    && (c.added ==> c.attempted != [])
    && (!InLoop(c) ==> c.inbox == [])
  }

  /** The session is in the queue once if its waiter has finished, and not before. */
  ghost predicate Awaited(c: Connection, enqueued: nat, handled: bool) {
    && Ready.Inv(c.channels)
    && enqueued == (if c.waiter.Enqueued? then 1 else 0)
    && (c.waiter == AwaitingReady ==> c.notice != Unsent)
    && (c.waiter == Enqueued(false) ==> c.notice != Unsent && c.channels.fired == 1)
    && (handled ==> c.waiter == NotStarted)
  }

  ghost predicate Sound(s: State, id: u64)
    requires id in s.connections
  {
    var c := s.connections[id];
    && Routed(c, id, s.received, id in s.dispatchers)
    && NoticeTracked(c, id in s.notifiers)
    && Awaited(c, multiset(s.incoming)[id], s.handling == Some(id))
  }

  ghost predicate Inv(s: State) {
    && s.dispatchers <= s.connections.Keys && s.notifiers <= s.connections.Keys
    && (s.handling.Some? ==> s.handling.value in s.connections)
    && (forall id :: id in s.incoming ==> id in s.connections)
    && forall id :: id in s.connections ==> Sound(s, id)
  }

  // ----- Steps keep it -----

  lemma CandidatesAfterSignal(received: seq<Signal>, signal: Signal, id: u64, since: nat)
    requires since <= |received|
    ensures CandidatesIn((received + [signal])[since..], id)
            == CandidatesIn(received[since..], id) + (if IsCandidate(signal, id) then [signal] else [])
  {
    var one := [signal];
    assert (received + one)[since..] == received[since..] + one && one[1..] == [];
    CandidatesConcat(received[since..], one, id);
  }

  /** A signal that is dropped, or goes elsewhere. */
  lemma RoutedPast(c: Connection, id: u64, received: seq<Signal>, dispatching: bool, signal: Signal)
    requires Routed(c, id, received, dispatching)
    requires dispatching ==> !IsCandidate(signal, id)
    ensures Routed(c, id, received + [signal], dispatching)
  {
    CandidatesAfterSignal(received, signal, id, c.since);
  }

  lemma RoutedIn(c: Connection, id: u64, received: seq<Signal>, signal: Signal)
    requires Routed(c, id, received, true) && signal.connectionId == id
    ensures Routed(c.(inbox := c.inbox + [signal]), id, received + [signal], true)
  {
    var one := [signal];
    CandidatesAfterSignal(received, signal, id, c.since);
    CandidatesConcat(c.inbox, one, id);
    assert one[1..] == [];
    ConcatAssoc(c.attempted, CandidatesIn(c.inbox, id), CandidatesIn(one, id));
  }

  lemma RoutedOut(c: Connection, c': Connection, id: u64, received: seq<Signal>, dispatching: bool)
    requires Routed(c, id, received, dispatching) && c.inbox != []
    requires c'.since == c.since && InLoop(c) && InLoop(c') && c'.inbox == c.inbox[1..]
    requires c'.attempted == if c.inbox[0].kind == Candidate then c.attempted + [c.inbox[0]] else c.attempted
    ensures Routed(c', id, received, dispatching)
  {
    assert c.inbox[0] in c.inbox;
    assert c.attempted + CandidatesIn(c.inbox, id) == c'.attempted + CandidatesIn(c'.inbox, id);
  }

  /** A connection that a step leaves alone. */
  lemma UntouchedStaysSound(s: State, s': State, id: u64)
    requires id in s.connections && id in s'.connections && s'.connections[id] == s.connections[id]
    requires Sound(s, id) && s'.received == s.received
    requires id in s'.dispatchers ==> id in s.dispatchers
    requires id in s'.notifiers <==> id in s.notifiers
    requires multiset(s'.incoming)[id] == multiset(s.incoming)[id]
    requires s'.handling == Some(id) ==> s.handling == Some(id)
    ensures Sound(s', id)
  {
  }

  lemma OfferKeepsInv(s: State, signal: Signal)
    requires Inv(s) && Enabled(s, Receive(signal)) && signal.kind == Offer
    ensures Inv(Received(s, signal))
  {
    var s', target := Received(s, signal), signal.connectionId;
    forall id | id in s'.connections
      ensures Sound(s', id)
    {
      if id == target {
        assert s'.received[|s'.received|..] == [] && id !in s.incoming;
      } else {
        assert Sound(s, id) && s'.connections[id] == s.connections[id];
        RoutedPast(s.connections[id], id, s.received, id in s.dispatchers, signal);
      }
    }
  }

  lemma DispatchKeepsInv(s: State, signal: Signal)
    requires Inv(s) && Enabled(s, Receive(signal)) && signal.kind != Offer
    ensures Inv(Received(s, signal))
  {
    var s', target := Received(s, signal), signal.connectionId;
    forall id | id in s'.connections
      ensures Sound(s', id)
    {
      assert Sound(s, id);
      if id == target && id in s.dispatchers {
        RoutedIn(s.connections[id], id, s.received, signal);
      } else {
        assert s'.connections[id] == s.connections[id];
        RoutedPast(s.connections[id], id, s.received, id in s.dispatchers, signal);
      }
    }
  }

  lemma RefusalKeepsInv(s: State, signal: Signal)
    requires Inv(s) && Enabled(s, RefuseOffer(signal))
    ensures Inv(Next(s, RefuseOffer(signal)))
  {
    var s' := Next(s, RefuseOffer(signal));
    forall id | id in s'.connections
      ensures Sound(s', id)
    {
      assert Sound(s, id) && s'.connections[id] == s.connections[id];
      RoutedPast(s.connections[id], id, s.received, id in s.dispatchers, signal);
    }
  }

  lemma TakenStaysSound(s: State, id: u64, accepted: bool)
    requires Enabled(s, TakeSignal(id, accepted)) && Sound(s, id)
    ensures Sound(Taken(s, id, accepted), id)
  {
    RoutedOut(s.connections[id], Taken(s, id, accepted).connections[id], id, s.received, id in s.dispatchers);
  }

  lemma TakeKeepsInv(s: State, id: u64, accepted: bool)
    requires Inv(s) && Enabled(s, TakeSignal(id, accepted))
    ensures Inv(Taken(s, id, accepted))
  {
    var s' := Taken(s, id, accepted);
    assert Sound(s, id);
    TakenStaysSound(s, id, accepted);
    OthersStaySound(s, s', id);
  }

  /** A step that only touches connection `id`. */
  lemma OthersStaySound(s: State, s': State, id: u64)
    requires Inv(s) && id in s.connections && s'.received == s.received
    requires id in s'.connections && s'.connections == s.connections[id := s'.connections[id]]
    requires s'.dispatchers == s.dispatchers || s'.dispatchers == s.dispatchers - {id}
    requires s'.notifiers == s.notifiers || s'.notifiers == s.notifiers - {id}
    requires s'.incoming == s.incoming || s'.incoming == s.incoming + [id]
    requires s'.handling == s.handling || (s.handling == Some(id) && s'.handling == None)
    requires Sound(s', id)
    ensures Inv(s')
  {
    assert multiset(s.incoming + [id]) == multiset(s.incoming) + multiset{id};
    forall other | other in s'.connections && other != id
      ensures Sound(s', other)
    {
      UntouchedStaysSound(s, s', other);
    }
  }

  /** A candidate task at the notifiers' lock. */
  lemma SettledStaysSound(s: State, id: u64, step: Step)
    requires id in s.connections && Sound(s, id)
    requires Enabled(s, step) && (step == NotifyFirst(id) || step == CleanUp(id))
    ensures Sound(Next(s, step), id)
  {
  }

  lemma SettledKeepsInv(s: State, id: u64, step: Step)
    requires Inv(s) && Enabled(s, step) && (step == NotifyFirst(id) || step == CleanUp(id))
    ensures Inv(Next(s, step))
  {
    assert Sound(s, id);
    SettledStaysSound(s, id, step);
    OthersStaySound(s, Next(s, step), id);
  }

  lemma EndLoopKeepsInv(s: State, id: u64)
    requires Inv(s) && Enabled(s, EndLoop(id))
    ensures Inv(Next(s, EndLoop(id)))
  {
    assert Sound(s, id);
    assert Sound(Next(s, EndLoop(id)), id);
    OthersStaySound(s, Next(s, EndLoop(id)), id);
  }

  lemma PeerGoneKeepsInv(s: State, id: u64)
    requires Inv(s) && Enabled(s, PeerGone(id))
    ensures Inv(Next(s, PeerGone(id)))
  {
    assert Sound(s, id);
    assert Sound(Next(s, PeerGone(id)), id);
    OthersStaySound(s, Next(s, PeerGone(id)), id);
  }

  lemma FinishOfferKeepsInv(s: State, ok: bool)
    requires Inv(s) && Enabled(s, FinishOffer(ok))
    ensures Inv(Next(s, FinishOffer(ok)))
  {
    var id := s.handling.value;
    assert Sound(s, id);
    assert Sound(Next(s, FinishOffer(ok)), id);
    OthersStaySound(s, Next(s, FinishOffer(ok)), id);
  }

  lemma CandidateNoticedKeepsInv(s: State, id: u64)
    requires Inv(s) && Enabled(s, CandidateNoticed(id))
    ensures Inv(Next(s, CandidateNoticed(id)))
  {
    assert Sound(s, id);
    assert Sound(Next(s, CandidateNoticed(id)), id);
    OthersStaySound(s, Next(s, CandidateNoticed(id)), id);
  }

  lemma ChannelStepKeepsInv(s: State, id: u64, step: Ready.Step)
    requires Inv(s) && Enabled(s, ChannelStep(id, step))
    ensures Inv(Next(s, ChannelStep(id, step)))
  {
    var s' := Next(s, ChannelStep(id, step));
    var c := s.connections[id];
    assert Sound(s, id);
    Ready.StepKeepsInv(c.channels, step);
    Ready.FiredStaysFired(c.channels, step);
    assert Sound(s', id);
    OthersStaySound(s, s', id);
  }

  lemma EnqueueKeepsInv(s: State, step: Step)
    requires Inv(s) && Enabled(s, step) && (step.ReadyNoticed? || step.WaiterTimeout?)
    ensures Inv(Next(s, step))
  {
    var s' := Next(s, step);
    assert multiset(s'.incoming) == multiset(s.incoming) + multiset{step.id};
    assert Sound(s, step.id);
    assert Sound(s', step.id);
    OthersStaySound(s, s', step.id);
  }

  lemma {:induction false} ReachableInv(steps: seq<Step>, s: State)
    requires Reaches(steps, s)
    ensures Inv(s)
  {
    if steps != [] {
      var last := |steps| - 1;
      var before :| Reaches(steps[..last], before) && Enabled(before, steps[last]) && s == Next(before, steps[last]);
      ReachableInv(steps[..last], before);
      match steps[last] {
        case Receive(signal) =>
          if signal.kind == Offer {
            OfferKeepsInv(before, signal);
          } else {
            DispatchKeepsInv(before, signal);
          }
        case RefuseOffer(signal) => RefusalKeepsInv(before, signal);
        case TakeSignal(id, accepted) => TakeKeepsInv(before, id, accepted);
        case ReadyNoticed(_) => EnqueueKeepsInv(before, steps[last]);
        case WaiterTimeout(_) => EnqueueKeepsInv(before, steps[last]);
        case ChannelStep(id, step) => ChannelStepKeepsInv(before, id, step);
        case FinishOffer(ok) => FinishOfferKeepsInv(before, ok);
        case NotifyFirst(id) => SettledKeepsInv(before, id, steps[last]);
        case EndLoop(id) => EndLoopKeepsInv(before, id);
        case CleanUp(id) => SettledKeepsInv(before, id, steps[last]);
        case PeerGone(id) => PeerGoneKeepsInv(before, id);
        case CandidateNoticed(id) => CandidateNoticedKeepsInv(before, id);
      }
    }
  }

  // ----- The theorems -----

  /**
   * Routing: the candidates attempted on a connection are, in order and without repeats, a prefix of the candidates
   * received for it after its offer; all of them once its inbox is empty while it is dispatching.
   */
  lemma CandidatesAreRouted(steps: seq<Step>, s: State, id: u64)
    requires Reaches(steps, s) && id in s.connections
    ensures var c := s.connections[id];
            && c.since <= |s.received|
            && c.attempted <= CandidatesIn(s.received[c.since..], id)
            && (id in s.dispatchers && c.inbox == [] ==> c.attempted == CandidatesIn(s.received[c.since..], id))
  {
    ReachableInv(steps, s);
    assert Sound(s, id);
  }

  /** Each handled offer enqueues its session exactly once; a failed one never does. */
  lemma EnqueuedExactlyOnce(steps: seq<Step>, s: State, id: u64)
    requires Reaches(steps, s)
    ensures multiset(s.incoming)[id] == (if id in s.connections && s.connections[id].waiter.Enqueued? then 1 else 0)
  {
    ReachableInv(steps, s);
    if id in s.connections {
      assert Sound(s, id);
    }
  }

  /**
   * A session that is enqueued without a timeout has both its channels attached, and either a candidate was added
   * or its candidate task had ended.
   */
  lemma EnqueuedWhenReady(steps: seq<Step>, s: State, id: u64)
    requires Reaches(steps, s) && id in s.connections && s.connections[id].waiter == Enqueued(false)
    ensures var c := s.connections[id];
            && c.channels.reliable && c.channels.unreliable
            && (c.added ==> c.attempted != []) && (!c.added ==> c.task == Done)
  {
    ReachableInv(steps, s);
    assert Sound(s, id);
  }

  lemma ReachableNotice(steps: seq<Step>, s: State, id: u64)
    requires Reaches(steps, s) && id in s.connections
    ensures NoticeTracked(s.connections[id], id in s.notifiers)
  {
    ReachableInv(steps, s);
    assert Sound(s, id);
  }

  /**
   * The candidate oneshot is not lost: a waiter can pass it exactly when a candidate has been added and its task is
   * past the notifiers' lock, or the task is done; and from that lock the task's next step lets it pass.
   */
  lemma CandidateNoticedIff(steps: seq<Step>, s: State, id: u64)
    requires Reaches(steps, s) && IsWaiting(s, id, AwaitingCandidate)
    ensures var c := s.connections[id];
            && (Enabled(s, CandidateNoticed(id)) <==> (c.added && c.task != Notifying) || c.task == Done)
            && (c.task == Notifying ==> Enabled(Next(s, NotifyFirst(id)), CandidateNoticed(id)))
            && (c.task == CleaningUp ==> Enabled(Next(s, CleanUp(id)), CandidateNoticed(id)))
  {
    ReachableNotice(steps, s, id);
  }

  lemma ReachableChannels(steps: seq<Step>, s: State, id: u64)
    requires Reaches(steps, s) && id in s.connections
    ensures Ready.Inv(s.connections[id].channels)
  {
    ReachableInv(steps, s);
    assert Sound(s, id);
  }

  ghost predicate HasBothChannels(c: Connection) {
    Ready.HasOpened(c.channels, Ready.ReliableLabel) && Ready.HasOpened(c.channels, Ready.UnreliableLabel)
  }

  /**
   * The ready oneshot is not lost either: once the handlers of a connection have finished, a waiter can pass it
   * exactly when channels with both labels were among them.
   */
  lemma ReadyNoticedIff(steps: seq<Step>, s: State, id: u64)
    requires Reaches(steps, s) && IsWaiting(s, id, AwaitingReady) && Ready.AllFinished(s.connections[id].channels)
    ensures Enabled(s, ReadyNoticed(id)) <==> HasBothChannels(s.connections[id])
  {
    ReachableChannels(steps, s, id);
    Ready.FiredIffBothOpened(s.connections[id].channels);
  }

  lemma ReachesNext(steps: seq<Step>, s: State, step: Step)
    requires Reaches(steps, s) && Enabled(s, step)
    ensures Reaches(steps + [step], Next(s, step))
  {
    var all := steps + [step];
    var last := |all| - 1;
    assert all[..last] == steps && all[last] == step;
  }

  /** A candidate has been added, or the task will add none. */
  predicate CandidatesSettled(c: Connection) {
    c.added || !InLoop(c)
  }

  /** At most one step of the candidate task, and the waiter can pass the first oneshot. */
  lemma NoticeArrives(steps: seq<Step>, s: State, id: u64) returns (more: seq<Step>, s': State)
    requires Reaches(steps, s) && IsWaiting(s, id, AwaitingCandidate) && CandidatesSettled(s.connections[id])
    ensures |more| <= 1 && (forall step :: step in more ==> !step.WaiterTimeout?)
    ensures Reaches(steps + more, s') && Enabled(s', CandidateNoticed(id))
    ensures s'.connections[id].channels == s.connections[id].channels
  {
    CandidateNoticedIff(steps, s, id);
    var step := if s.connections[id].task == Notifying then NotifyFirst(id) else CleanUp(id);
    if Enabled(s, CandidateNoticed(id)) {
      assert steps + [] == steps;
      return [], s;
    }
    ReachesNext(steps, s, step);
    return [step], Next(s, step);
  }

  /** Two wake-ups take a waiter through both oneshots. */
  lemma WakeTwice(steps: seq<Step>, s: State, id: u64) returns (s': State)
    requires Reaches(steps, s) && Enabled(s, CandidateNoticed(id))
    requires Ready.AllFinished(s.connections[id].channels) && HasBothChannels(s.connections[id])
    ensures Reaches(steps + [CandidateNoticed(id)] + [ReadyNoticed(id)], s')
    ensures IsWaiting(s', id, Enqueued(false))
  {
    ReachesNext(steps, s, CandidateNoticed(id));
    var woken := Next(s, CandidateNoticed(id));
    ReadyNoticedIff(steps + [CandidateNoticed(id)], woken, id);
    ReachesNext(steps + [CandidateNoticed(id)], woken, ReadyNoticed(id));
    s' := Next(woken, ReadyNoticed(id));
  }

  /**
   * So the timeouts are not needed: once a candidate has been added or the task's loop has ended, and the handlers
   * have finished with both labels, at most three steps, none a timeout, take a waiting session into the queue, once.
   */
  lemma WaiterNeedsNoTimeout(steps: seq<Step>, s: State, id: u64) returns (more: seq<Step>, s': State)
    requires Reaches(steps, s) && IsWaiting(s, id, AwaitingCandidate) && CandidatesSettled(s.connections[id])
    requires Ready.AllFinished(s.connections[id].channels) && HasBothChannels(s.connections[id])
    ensures |more| <= 3 && (forall step :: step in more ==> !step.WaiterTimeout?)
    ensures Reaches(steps + more, s') && IsWaiting(s', id, Enqueued(false))
    ensures multiset(s'.incoming)[id] == 1
  {
    var noticed;
    more, noticed := NoticeArrives(steps, s, id);
    s' := WakeTwice(steps + more, noticed, id);
    var wakeUps := [CandidateNoticed(id)] + [ReadyNoticed(id)];
    assert steps + more + [CandidateNoticed(id)] + [ReadyNoticed(id)] == steps + (more + wakeUps);
    more := more + wakeUps;
    EnqueuedExactlyOnce(steps + more, s', id);
  }

  // ----- What a run's steps say -----

  predicate IsOffer(step: Step, id: u64) {
    step.Receive? && step.signal.kind == Offer && step.signal.connectionId == id
  }

  ghost predicate WasOffered(steps: seq<Step>, id: u64) {
    exists i :: 0 <= i < |steps| && IsOffer(steps[i], id)
  }

  /** The offer at `i` is finished at `j`. */
  ghost predicate FinishedAt(steps: seq<Step>, id: u64, ok: bool, i: nat, j: nat) {
    && i < j < |steps| && IsOffer(steps[i], id) && steps[j] == FinishOffer(ok)
    && forall k :: i < k < j ==> !steps[k].FinishOffer?
  }

  /** The offer at `i` has not been finished. */
  ghost predicate OpenAt(steps: seq<Step>, id: u64, i: nat) {
    i < |steps| && IsOffer(steps[i], id) && forall k :: i < k < |steps| ==> !steps[k].FinishOffer?
  }

  /** The offer of `id` has been received and its handling not finished. */
  ghost predicate OfferOpen(steps: seq<Step>, id: u64) {
    exists i: nat :: OpenAt(steps, id, i)
  }

  /** The handling of the offer of `id` has finished, well or not. */
  ghost predicate OfferFinished(steps: seq<Step>, id: u64, ok: bool) {
    exists i: nat, j: nat :: FinishedAt(steps, id, ok, i, j)
  }

  /** The signals received, those of refused offers included. */
  function SignalsOf(steps: seq<Step>): seq<Signal> {
    if steps == [] then []
    else
      var last := steps[|steps| - 1];
      SignalsOf(steps[..|steps| - 1]) + if last.Receive? || last.RefuseOffer? then [last.signal] else []
  }

  /** The connections whose waiter was woken for the last time, or timed out. */
  function QueuedBy(steps: seq<Step>): seq<u64> {
    if steps == [] then []
    else
      var last := steps[|steps| - 1];
      QueuedBy(steps[..|steps| - 1]) + if last.ReadyNoticed? || last.WaiterTimeout? then [last.id] else []
  }

  lemma OfferedAfter(steps: seq<Step>, last: Step, id: u64)
    ensures WasOffered(steps + [last], id) <==> WasOffered(steps, id) || IsOffer(last, id)
  {
    var all := steps + [last];
    assert all[|steps|] == last;
    if i :| 0 <= i < |steps| && IsOffer(steps[i], id) {
      assert all[i] == steps[i];
    }
  }

  lemma OpenAfter(steps: seq<Step>, last: Step, id: u64)
    ensures OfferOpen(steps + [last], id) <==> IsOffer(last, id) || (OfferOpen(steps, id) && !last.FinishOffer?)
  {
    var all, n := steps + [last], |steps|;
    assert all[n] == last && forall k :: 0 <= k < n ==> all[k] == steps[k];
    if IsOffer(last, id) {
      assert OpenAt(all, id, n);
    }
    if i: nat :| OpenAt(steps, id, i) && !last.FinishOffer? {
      assert OpenAt(all, id, i);
    }
    if i: nat :| OpenAt(all, id, i) {
      assert i < n ==> OpenAt(steps, id, i) && !all[n].FinishOffer?;
    }
  }

  lemma FinishedAtAfter(steps: seq<Step>, last: Step, id: u64, ok: bool, i: nat, j: nat)
    ensures FinishedAt(steps + [last], id, ok, i, j)
            <==> FinishedAt(steps, id, ok, i, j) || (j == |steps| && last == FinishOffer(ok) && OpenAt(steps, id, i))
  {
    var all := steps + [last];
    assert all[|steps|] == last && forall k :: 0 <= k < |steps| ==> all[k] == steps[k];
  }

  lemma FinishedAfter(steps: seq<Step>, last: Step, id: u64, ok: bool)
    ensures OfferFinished(steps + [last], id, ok)
            <==> OfferFinished(steps, id, ok) || (last == FinishOffer(ok) && OfferOpen(steps, id))
  {
    forall i: nat, j: nat
      ensures FinishedAt(steps + [last], id, ok, i, j)
              <==> FinishedAt(steps, id, ok, i, j) || (j == |steps| && last == FinishOffer(ok) && OpenAt(steps, id, i))
    {
      FinishedAtAfter(steps, last, id, ok, i, j);
    }
    if i: nat :| OpenAt(steps, id, i) && last == FinishOffer(ok) {
      assert FinishedAt(steps + [last], id, ok, i, |steps|);
    }
    if i: nat, j: nat :| FinishedAt(steps, id, ok, i, j) {
      assert FinishedAt(steps + [last], id, ok, i, j);
    }
    if i: nat, j: nat :| FinishedAt(steps + [last], id, ok, i, j) {
      assert FinishedAt(steps, id, ok, i, j) || OpenAt(steps, id, i);
    }
  }

  /** What one step does to the offer of `id`. */
  lemma StepOnConnections(s: State, step: Step, id: u64)
    requires Inv(s) && Enabled(s, step)
    ensures id in Next(s, step).connections <==> id in s.connections || IsOffer(step, id)
    ensures IsOffer(step, id) ==> id !in s.connections
  {
  }

  lemma StepOnHandling(s: State, step: Step, id: u64)
    requires Inv(s) && Enabled(s, step)
    ensures Next(s, step).handling == Some(id)
            <==> IsOffer(step, id) || (s.handling == Some(id) && !step.FinishOffer?)
    ensures IsOffer(step, id) ==> s.handling == None
  {
  }

  lemma StepOnDispatchers(s: State, step: Step, id: u64)
    requires Inv(s) && Enabled(s, step)
    ensures id in Next(s, step).dispatchers <==> IsOffer(step, id) || (id in s.dispatchers && step != PeerGone(id))
    ensures step == PeerGone(id) ==> id in s.connections
  {
  }

  predicate HasStarted(s: State, id: u64) {
    id in s.connections && s.connections[id].waiter != NotStarted
  }

  /** The waiter of `id` starts when the handling of its offer finishes well, and is not undone. */
  lemma StepOnWaiter(s: State, step: Step, id: u64)
    requires Enabled(s, step) && (s.handling == Some(id) ==> !HasStarted(s, id))
    ensures HasStarted(Next(s, step), id)
            <==> HasStarted(s, id) || (step == FinishOffer(true) && s.handling == Some(id))
  {
  }

  /** What has happened to one offer. */
  datatype OfferFate = OfferFate(offered: bool, open: bool, well: bool, badly: bool, peerGone: bool)

  ghost function FateOf(steps: seq<Step>, id: u64): OfferFate {
    OfferFate(WasOffered(steps, id), OfferOpen(steps, id), OfferFinished(steps, id, true),
              OfferFinished(steps, id, false), PeerGone(id) in steps)
  }

  lemma FateAfter(steps: seq<Step>, step: Step, id: u64)
    ensures var f := FateOf(steps, id);
            FateOf(steps + [step], id)
            == OfferFate(f.offered || IsOffer(step, id),
                         IsOffer(step, id) || (f.open && !step.FinishOffer?),
                         f.well || (step == FinishOffer(true) && f.open),
                         f.badly || (step == FinishOffer(false) && f.open),
                         f.peerGone || step == PeerGone(id))
  {
    OfferedAfter(steps, step, id);
    OpenAfter(steps, step, id);
    FinishedAfter(steps, step, id, true);
    FinishedAfter(steps, step, id, false);
  }

  /** What the state knows of `id` is what has happened to its offer. */
  ghost predicate FateTold(f: OfferFate, s: State, id: u64) {
    && (id in s.connections <==> f.offered)
    && (s.handling == Some(id) <==> f.open)
    && (HasStarted(s, id) <==> f.well)
    && (f.well || f.badly ==> id in s.connections && s.handling != Some(id))
    && !(f.well && f.badly)
    && (id in s.dispatchers <==> id in s.connections && !f.peerGone)
    && (f.peerGone ==> id in s.connections)
  }

  lemma OfferToldStep(f: OfferFate, f': OfferFate, s: State, step: Step, id: u64)
    requires Inv(s) && Enabled(s, step) && FateTold(f, s, id)
    requires f' == OfferFate(f.offered || IsOffer(step, id),
                             IsOffer(step, id) || (f.open && !step.FinishOffer?),
                             f.well || (step == FinishOffer(true) && f.open),
                             f.badly || (step == FinishOffer(false) && f.open),
                             f.peerGone || step == PeerGone(id))
    ensures FateTold(f', Next(s, step), id)
  {
    StepOnConnections(s, step, id);
    StepOnHandling(s, step, id);
    StepOnDispatchers(s, step, id);
    if id in s.connections {
      assert Sound(s, id);
    }
    StepOnWaiter(s, step, id);
  }

  lemma ToldAfterLast(init: seq<Step>, last: Step, before: State, id: u64)
    requires Reaches(init, before) && Enabled(before, last) && FateTold(FateOf(init, id), before, id)
    ensures FateTold(FateOf(init + [last], id), Next(before, last), id)
  {
    ReachableInv(init, before);
    FateAfter(init, last, id);
    OfferToldStep(FateOf(init, id), FateOf(init + [last], id), before, last, id);
  }

  lemma {:induction false} OffersAreTold(steps: seq<Step>, s: State, id: u64)
    requires Reaches(steps, s)
    ensures FateTold(FateOf(steps, id), s, id)
  {
    if steps != [] {
      var last := |steps| - 1;
      var before :| Reaches(steps[..last], before) && Enabled(before, steps[last]) && s == Next(before, steps[last]);
      OffersAreTold(steps[..last], before, id);
      ToldAfterLast(steps[..last], steps[last], before, id);
      assert steps == steps[..last] + [steps[last]];
    }
  }

  /**
   * The task that enqueues a session runs exactly for the offers whose handling finished well. An offer whose handling
   * failed is never enqueued.
   */
  lemma WaiterStartedIff(steps: seq<Step>, s: State, id: u64)
    requires Reaches(steps, s)
    ensures id in s.connections <==> WasOffered(steps, id)
    ensures id in s.connections ==> (s.connections[id].waiter != NotStarted <==> OfferFinished(steps, id, true))
    ensures OfferFinished(steps, id, false) ==> !OfferFinished(steps, id, true) && id !in s.incoming
  {
    OffersAreTold(steps, s, id);
    EnqueuedExactlyOnce(steps, s, id);
    if id in s.incoming {
      assert multiset(s.incoming)[id] > 0;
    }
  }

  /** What finishing an offer does, well or badly. */
  lemma FinishOfferStarts(steps: seq<Step>, s: State, ok: bool)
    requires Reaches(steps, s) && Enabled(s, FinishOffer(ok))
    ensures var id := s.handling.value;
            Next(s, FinishOffer(ok)).connections[id]
            == s.connections[id].(waiter := if ok then AwaitingCandidate else NotStarted)
  {
    ReachableInv(steps, s);
    assert Sound(s, s.handling.value);
  }

  /**
   * An offer handled well comes through: with its candidates settled and its handlers finished with both labels, at
   * most four steps, none a timeout, put its session in the queue.
   */
  lemma HandledOfferIsEnqueued(steps: seq<Step>, s: State) returns (more: seq<Step>, s': State)
    requires Reaches(steps, s) && Enabled(s, FinishOffer(true))
    requires var c := s.connections[s.handling.value];
             CandidatesSettled(c) && Ready.AllFinished(c.channels) && HasBothChannels(c)
    ensures |more| <= 4 && more != [] && more[0] == FinishOffer(true)
    ensures forall step :: step in more ==> !step.WaiterTimeout?
    ensures Reaches(steps + more, s') && multiset(s'.incoming)[s.handling.value] == 1
  {
    var id := s.handling.value;
    FinishOfferStarts(steps, s, true);
    ReachesNext(steps, s, FinishOffer(true));
    var rest;
    rest, s' := WaiterNeedsNoTimeout(steps + [FinishOffer(true)], Next(s, FinishOffer(true)), id);
    more := [FinishOffer(true)] + rest;
    ConcatAssoc(steps, [FinishOffer(true)], rest);
  }

  /** And when nothing else does, a timeout puts a waiting session in the queue. */
  lemma TimeoutEnqueues(steps: seq<Step>, s: State, id: u64)
    requires Reaches(steps, s) && (IsWaiting(s, id, AwaitingCandidate) || IsWaiting(s, id, AwaitingReady))
    ensures Enabled(s, WaiterTimeout(id)) && Next(s, WaiterTimeout(id)).incoming == s.incoming + [id]
    ensures IsWaiting(Next(s, WaiterTimeout(id)), id, Enqueued(true))
  {
  }

  /** A connection is dispatching from its offer until its peer is gone. */
  lemma DispatchingIff(steps: seq<Step>, s: State, id: u64)
    requires Reaches(steps, s)
    ensures id in s.dispatchers <==> WasOffered(steps, id) && PeerGone(id) !in steps
  {
    OffersAreTold(steps, s, id);
  }

  lemma StepRecords(s: State, step: Step)
    requires Enabled(s, step)
    ensures Next(s, step).received
            == s.received + if step.Receive? || step.RefuseOffer? then [step.signal] else []
    ensures Next(s, step).incoming == s.incoming + if step.ReadyNoticed? || step.WaiterTimeout? then [step.id] else []
  {
  }

  /** The signals received are those of the run, and sessions are queued in the order of the steps that queue them. */
  lemma {:induction false} ReceivedAndQueued(steps: seq<Step>, s: State)
    requires Reaches(steps, s)
    ensures s.received == SignalsOf(steps) && s.incoming == QueuedBy(steps)
  {
    if steps != [] {
      var last := |steps| - 1;
      var before :| Reaches(steps[..last], before) && Enabled(before, steps[last]) && s == Next(before, steps[last]);
      ReceivedAndQueued(steps[..last], before);
      StepRecords(before, steps[last]);
    }
  }

  /** How far the candidate task of `id` has come. */
  predicate TaskIs(s: State, id: u64, looped: bool, done: bool) {
    id in s.connections ==>
      (InLoop(s.connections[id]) <==> !looped) && (s.connections[id].task == Done <==> done)
  }

  lemma StepOnTask(s: State, step: Step, id: u64, looped: bool, done: bool)
    requires Enabled(s, step) && TaskIs(s, id, looped, done) && (id !in s.connections ==> !looped && !done)
    ensures TaskIs(Next(s, step), id, looped || step == EndLoop(id), done || step == CleanUp(id))
    ensures step == EndLoop(id) || step == CleanUp(id) ==> id in s.connections
    ensures id in s.connections ==> id in Next(s, step).connections
  {
  }

  /** A candidate task leaves its loop with EndLoop and is done with CleanUp, two separate steps. */
  lemma {:induction false} TaskEndsIff(steps: seq<Step>, s: State, id: u64)
    requires Reaches(steps, s)
    ensures TaskIs(s, id, EndLoop(id) in steps, CleanUp(id) in steps)
    ensures EndLoop(id) in steps || CleanUp(id) in steps ==> id in s.connections
  {
    if steps != [] {
      var last := |steps| - 1;
      var before :| Reaches(steps[..last], before) && Enabled(before, steps[last]) && s == Next(before, steps[last]);
      TaskEndsIff(steps[..last], before, id);
      StepOnTask(before, steps[last], id, EndLoop(id) in steps[..last], CleanUp(id) in steps[..last]);
      assert forall step :: step in steps <==> step in steps[..last] || step == steps[last];
    }
  }

  // ----- The first candidate -----

  lemma {:induction false} ReachesOneState(steps: seq<Step>, s: State, s': State)
    requires Reaches(steps, s) && Reaches(steps, s')
    ensures s == s'
  {
    if steps != [] {
      var last := |steps| - 1;
      var before :| Reaches(steps[..last], before) && Enabled(before, steps[last]) && s == Next(before, steps[last]);
      var before' :| Reaches(steps[..last], before') && Enabled(before', steps[last])
                     && s' == Next(before', steps[last]);
      ReachesOneState(steps[..last], before, before');
    }
  }

  /** The step takes a candidate of `id` from its inbox, and the peer connection accepts it. */
  predicate AcceptsCandidate(s: State, step: Step, id: u64) {
    && Enabled(s, step) && step == TakeSignal(id, true)
    && s.connections[id].inbox[0].kind == Candidate
  }

  ghost predicate HasAccepted(steps: seq<Step>, id: u64) {
    exists i, s :: 0 <= i < |steps| && Reaches(steps[..i], s) && AcceptsCandidate(s, steps[i], id)
  }

  lemma AcceptedAfter(steps: seq<Step>, s: State, step: Step, id: u64)
    requires Reaches(steps, s)
    ensures HasAccepted(steps + [step], id) <==> HasAccepted(steps, id) || AcceptsCandidate(s, step, id)
  {
    var all, n := steps + [step], |steps|;
    assert all[..n] == steps && all[n] == step;
    assert forall i :: 0 <= i < n ==> all[..i] == steps[..i] && all[i] == steps[i];
    if i, t :| 0 <= i < |all| && Reaches(all[..i], t) && AcceptsCandidate(t, all[i], id) {
      if i == n {
        ReachesOneState(steps, s, t);
      } else {
        assert Reaches(steps[..i], t) && AcceptsCandidate(t, steps[i], id);
      }
    }
    if i, t :| 0 <= i < n && Reaches(steps[..i], t) && AcceptsCandidate(t, steps[i], id) {
      assert Reaches(all[..i], t) && AcceptsCandidate(t, all[i], id);
    }
  }

  predicate HasAdded(s: State, id: u64) {
    id in s.connections && s.connections[id].added
  }

  lemma AddedAfter(s: State, step: Step, id: u64)
    requires Enabled(s, step)
    ensures HasAdded(Next(s, step), id) <==> HasAdded(s, id) || AcceptsCandidate(s, step, id)
  {
  }

  /** A candidate counts as added exactly if the peer connection accepted one that was taken from the inbox. */
  lemma {:induction false} AddedIffAccepted(steps: seq<Step>, s: State, id: u64)
    requires Reaches(steps, s)
    ensures HasAdded(s, id) <==> HasAccepted(steps, id)
  {
    if steps != [] {
      var last := |steps| - 1;
      var before :| Reaches(steps[..last], before) && Enabled(before, steps[last]) && s == Next(before, steps[last]);
      AddedIffAccepted(steps[..last], before, id);
      AddedAfter(before, steps[last], id);
      AcceptedAfter(steps[..last], before, steps[last], id);
      assert steps == steps[..last] + [steps[last]];
    }
  }
}
