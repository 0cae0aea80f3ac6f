/**
 * The one-shot "channels are ready" notification of an accepted connection, raced by any number of data-channel
 * handlers that interleave at every lock they take (src/transport/listener.rs, src/session/mod.rs).
 */
module Ready {

  datatype Label = ReliableLabel | UnreliableLabel | OtherLabel

  /** Which lock a handler takes next; the two checks are the halves of `is_fully_connected`. */
  datatype Stage = Attaching | CheckingReliable | CheckingUnreliable | Notifying | Finished

  datatype Handler = Handler(tag: Label, stage: Stage)

  /** `sender` is the notifier still in its slot; `fired` counts its sends. */
  datatype Channels = Channels(reliable: bool, unreliable: bool, sender: bool, fired: nat, handlers: seq<Handler>)

  const NO_CHANNELS := Channels(false, false, true, 0, [])

  datatype Step = Open(tag: Label) | Advance(i: nat)

  predicate Enabled(c: Channels, step: Step) {
    step.Advance? ==> step.i < |c.handlers| && c.handlers[step.i].stage != Finished
  }

  function Next(c: Channels, step: Step): Channels
    requires Enabled(c, step)
  {
    match step
    case Open(tag) => c.(handlers := c.handlers + [Handler(tag, Attaching)])
    case Advance(i) =>
      var h := c.handlers[i];
      match h.stage
      case Attaching =>
        (match h.tag
         case ReliableLabel => Move(c.(reliable := true), i, CheckingReliable)
         case UnreliableLabel => Move(c.(unreliable := true), i, CheckingReliable)
         case OtherLabel => Move(c, i, Finished))
      case CheckingReliable => Move(c, i, if c.reliable then CheckingUnreliable else Finished)
      case CheckingUnreliable => Move(c, i, if c.unreliable then Notifying else Finished)
      case _ => Move(if c.sender then c.(sender := false, fired := c.fired + 1) else c, i, Finished)
  }

  function Move(c: Channels, i: nat, stage: Stage): Channels
    requires i < |c.handlers|
  {
    c.(handlers := c.handlers[i := c.handlers[i].(stage := stage)])
  }

  ghost predicate Reaches(steps: seq<Step>, c: Channels) {
    if steps == [] then c == NO_CHANNELS
    else
      var last := |steps| - 1;
      exists before :: Reaches(steps[..last], before) && Enabled(before, steps[last]) && c == Next(before, steps[last])
  }

  predicate HasAttached(h: Handler, tag: Label) {
    h.tag == tag && h.stage != Attaching
  }

  /** Past its attachment and not yet finished. */
  predicate IsUnderway(h: Handler) {
    h.stage == CheckingReliable || h.stage == CheckingUnreliable || h.stage == Notifying
  }

  /**
   * The flags say which labels have been attached; a handler about to notify has seen both; and once both are
   * attached, either the notification has fired or some handler is still underway and is going to see both.
   */
  ghost predicate Inv(c: Channels) {
    && (c.reliable <==> exists h :: h in c.handlers && HasAttached(h, ReliableLabel))
    && (c.unreliable <==> exists h :: h in c.handlers && HasAttached(h, UnreliableLabel))
    && c.fired == (if c.sender then 0 else 1)
    && (forall h :: h in c.handlers && h.stage == CheckingUnreliable ==> c.reliable)
    && (forall h :: h in c.handlers && h.stage == Notifying ==> c.reliable && c.unreliable)
    && (!c.sender ==> c.reliable && c.unreliable)
    && (c.reliable && c.unreliable && c.sender ==> exists h :: h in c.handlers && IsUnderway(h))
  }

  lemma StepKeepsInv(c: Channels, step: Step)
    requires Inv(c) && Enabled(c, step)
    ensures Inv(Next(c, step))
  {
    var c' := Next(c, step);
    match step
    case Open(tag) =>
      assert forall h :: h in c.handlers ==> h in c'.handlers;
    case Advance(i) =>
      var h, h' := c.handlers[i], c'.handlers[i];
      assert h in c.handlers && h' in c'.handlers;
      forall g | g in c.handlers && g != h
        ensures g in c'.handlers
      {
        var j :| 0 <= j < |c.handlers| && c.handlers[j] == g;
        assert c'.handlers[j] == g;
      }
  }

  lemma FiredStaysFired(c: Channels, step: Step)
    requires Inv(c) && Enabled(c, step)
    ensures c.fired == 1 ==> Next(c, step).fired == 1
  {
  }

  lemma {:induction false} ReachableInv(steps: seq<Step>, c: Channels)
    requires Reaches(steps, c)
    ensures Inv(c)
  {
    if steps != [] {
      var last := |steps| - 1;
      var before :| Reaches(steps[..last], before) && Enabled(before, steps[last]) && c == Next(before, steps[last]);
      ReachableInv(steps[..last], before);
      StepKeepsInv(before, steps[last]);
    }
  }

  ghost predicate IgnoresOthers(c: Channels) {
    forall i :: 0 <= i < |c.handlers| && c.handlers[i].tag == OtherLabel ==> !IsUnderway(c.handlers[i])
  }

  lemma StepIgnoresOthers(c: Channels, step: Step)
    requires Enabled(c, step) && IgnoresOthers(c)
    ensures IgnoresOthers(Next(c, step))
  {
    var c' := Next(c, step);
    forall i | 0 <= i < |c'.handlers| && c'.handlers[i].tag == OtherLabel
      ensures !IsUnderway(c'.handlers[i])
    {
      if i < |c.handlers| {
        assert c.handlers[i].tag == OtherLabel;
      }
    }
  }

  /** A channel with any other label is ignored: its handler takes no part in the race. */
  lemma {:induction false} OtherLabelsTakeNoPart(steps: seq<Step>, c: Channels)
    requires Reaches(steps, c)
    ensures IgnoresOthers(c)
  {
    if steps != [] {
      var last := |steps| - 1;
      var before :| Reaches(steps[..last], before) && Enabled(before, steps[last]) && c == Next(before, steps[last]);
      OtherLabelsTakeNoPart(steps[..last], before);
      StepIgnoresOthers(before, steps[last]);
    }
  }

  /** The notification fires at most once, and never before both labelled channels are attached. */
  lemma FiresAtMostOnceAndNotEarly(steps: seq<Step>, c: Channels)
    requires Reaches(steps, c)
    ensures c.fired <= 1
    ensures c.fired == 1 ==> c.reliable && c.unreliable
  {
    ReachableInv(steps, c);
  }

  ghost predicate AllFinished(c: Channels) {
    forall h :: h in c.handlers ==> h.stage == Finished
  }

  ghost predicate HasOpened(c: Channels, tag: Label) {
    exists h :: h in c.handlers && h.tag == tag
  }

  lemma FiredIffBothOpened(c: Channels)
    requires Inv(c) && AllFinished(c)
    ensures c.fired > 0 <==> HasOpened(c, ReliableLabel) && HasOpened(c, UnreliableLabel)
  {
    assert forall h, tag :: h in c.handlers ==> (HasAttached(h, tag) <==> h.tag == tag);
  }

  /** When every handler has finished, it has fired exactly once if both labels occurred, and otherwise not at all. */
  lemma FiredWhenAllFinishedIff(steps: seq<Step>, c: Channels)
    requires Reaches(steps, c) && AllFinished(c)
    ensures c.fired == if HasOpened(c, ReliableLabel) && HasOpened(c, UnreliableLabel) then 1 else 0
  {
    ReachableInv(steps, c);
    FiredIffBothOpened(c);
  }
}
