/** What failed sends do to the byte stream: exactly which calls break the accounting of `Pipeline`. */
module Tearing {
  import opened Wrappers
  import opened Octets
  import opened Segments
  import opened Reassembly
  import opened Sessions
  import opened Streams
  import opened Pipeline

  lemma {:induction false} CarriedConcat(left: seq<Bytes>, right: seq<Bytes>)
    ensures Carried(left + right) == Carried(left) + Carried(right)
  {
    if left == [] {
      assert left + right == right;
    } else {
      CarriedConcat(left[1..], right);
      ConcatHeadTail(left, right);
      ConcatAssoc(if left[0] == [] then [] else left[0][1..], Carried(left[1..]), Carried(right));
    }
  }

  /** Dropping at least one packet that carries data shortens what is carried. */
  lemma FewerPacketsCarryLess(kept: seq<Bytes>, all: seq<Bytes>)
    requires kept <= all && kept != all
    requires forall p :: p in all[|kept|..] ==> |p| >= 2
    ensures |Carried(kept)| < |Carried(all)|
  {
    var dropped := all[|kept|..];
    assert all == kept + dropped;
    CarriedConcat(kept, dropped);
    assert |Carried(dropped)| > 0 by {
      assert dropped[0] in dropped;
    }
  }

  lemma OwedCarriesData(f: SendFuture)
    requires f.Valid() && f.HasData()
    ensures forall p :: p in f.Owed() ==> |p| >= 2
  {
    if f.Pushing? {
      assert f.rest[0] in f.rest;
    } else if Splittable(f.data) {
      SplitShape(f.data);
    }
  }

  lemma TearingFlushUnaccounts(s: State, env: seq<Answer>)
    requires Inv(s) && !s.torn && FlushTears(s.writer, env)
    ensures !Accounted(s.(writer := RunFlush(s.writer, env).writer))
  {
    InvAccounts(s);
    FlushLedger(s.writer, env);
    FlushOutcomeIff(s.writer, env);
    var f, w := s.writer.sending.value, RunFlush(s.writer, env).writer;
    assert w.Committed() == w.session.wire;
    if f.Deliverable() {
      OwedCarriesData(f);
      assert forall p :: p in s.writer.Committed()[|w.session.wire|..] ==> p in f.Owed();
      FewerPacketsCarryLess(w.session.wire, s.writer.Committed());
    } else {
      FlattenOne(f.data);
      assert s.writer.Committed() == s.writer.session.wire;
    }
  }

  lemma PushedAreOwed(wire: seq<Bytes>, wire': seq<Bytes>, owed: seq<Bytes>)
    requires wire <= wire' <= wire + owed
    ensures forall p :: p in wire'[|wire|..] ==> p in owed
  {
    assert forall i :: |wire| <= i < |wire'| ==> wire'[i] == owed[i - |wire|];
  }

  /** With no send in flight, more of the same packets on the wire are more than was accepted. */
  lemma MorePacketsUnaccount(s: State, w: Writer)
    requires Accounted(s) && s.writer.sending == None && w.sending == None
    requires s.writer.session.wire <= w.session.wire && s.writer.session.wire != w.session.wire
    requires forall p :: p in w.session.wire[|s.writer.session.wire|..] ==> |p| >= 2
    ensures !Accounted(s.(writer := w))
  {
    assert w.Committed() == w.session.wire && s.writer.Committed() == s.writer.session.wire;
    FewerPacketsCarryLess(s.writer.session.wire, w.session.wire);
  }

  lemma TearingStartUnaccounts(s: State, buf: Bytes, env: seq<Answer>)
    requires Inv(s) && !s.torn && s.writer.sending == None && StartTears(s.writer.session, buf, env)
    ensures !Completed(RunStart(s.writer, buf, env).poll)
    ensures !Accounted(s.(writer := RunStart(s.writer, buf, env).writer))
  {
    InvAccounts(s);
    StartLedger(s.writer, buf, env);
    StartTearsIff(s.writer, buf, env);
    var wire, wire' := s.writer.session.wire, RunStart(s.writer, buf, env).writer.session.wire;
    assert s.writer.Committed() == wire;
    OwedCarriesData(CheckingClosed(buf));
    PushedAreOwed(wire, wire', PacketsOf(buf));
    MorePacketsUnaccount(s, RunStart(s.writer, buf, env).writer);
  }

  lemma TearingCallUnaccounts(s: State, call: Call)
    requires Inv(s) && !s.torn && Tears(s.writer, call)
    ensures !Accounted(WriterStep(s, call))
  {
    match call
    case Write(buf, envOld, envNew) =>
      FlushOutcomeIff(s.writer, envOld);
      if FlushTears(s.writer, envOld) {
        TearingFlushUnaccounts(s, envOld);
      } else {
        FlushKeepsInv(s, envOld);
        FlushKeepsRest(s.writer, envOld);
        TearingStartUnaccounts(s.(writer := RunFlush(s.writer, envOld).writer), buf, envNew);
      }
    case Flush(env) => TearingFlushUnaccounts(s, env);
    case Shutdown(envFlush, _) =>
      FlushOutcomeIff(s.writer, envFlush);
      TearingFlushUnaccounts(s, envFlush);
  }

  /**
   * From a reachable state that is not torn, a writer call breaks the accounting exactly when it meets the guards of
   * `Tears`: a refusal meets a send that carries data and either was accepted before or has got part of it out.
   */
  lemma TornIffUnaccounted(capacity: nat, steps: seq<Step>, s: State, call: Call)
    requires Reaches(capacity, steps, s) && !s.torn
    ensures s.writer.Valid() && (Tears(s.writer, call) <==> !Accounted(WriterStep(s, call)))
  {
    ReachableInv(capacity, steps, s);
    if Tears(s.writer, call) {
      TearingCallUnaccounts(s, call);
    } else {
      WriterKeepsInv(s, call);
      InvAccounts(WriterStep(s, call));
    }
  }

  // ----- Whole runs -----

  /** Every state along a run is accounted for. */
  ghost predicate AccountedThroughout(s: State, steps: seq<Step>)
    decreases |steps|
  {
    && Accounted(s)
    && (steps != [] && s.writer.Valid() && Enabled(s, steps[0]) ==> AccountedThroughout(Next(s, steps[0]), steps[1..]))
  }

  lemma {:induction false} TornStaysTorn(s: State, steps: seq<Step>, s': State)
    requires Follows(Anything, s, steps, s') && s.torn
    ensures s'.torn
    decreases |steps|
  {
    if steps != [] {
      TornStaysTorn(Next(s, steps[0]), steps[1..], s');
    }
  }

  lemma TearingStepUnaccounts(s: State, step: Step)
    requires Inv(s) && !s.torn && Enabled(s, step) && Next(s, step).torn
    ensures !Accounted(Next(s, step))
  {
    TearingCallUnaccounts(s, step.call);
  }

  lemma {:induction false} AccountedUnlessTorn(s: State, steps: seq<Step>, s': State)
    requires Inv(s) && !s.torn && Follows(Anything, s, steps, s')
    ensures AccountedThroughout(s, steps) <==> !s'.torn
    decreases |steps|
  {
    InvAccounts(s);
    if steps != [] {
      var next := Next(s, steps[0]);
      if next.torn {
        TearingStepUnaccounts(s, steps[0]);
        TornStaysTorn(next, steps[1..], s');
      } else {
        StepKeepsInv(s, steps[0]);
        AccountedUnlessTorn(next, steps[1..], s');
      }
    }
  }

  /** A run keeps the accounting all along exactly when none of its calls tears the stream. */
  lemma AccountedThroughoutIff(capacity: nat, steps: seq<Step>, s: State)
    requires Reaches(capacity, steps, s)
    ensures AccountedThroughout(Init(capacity), steps) <==> !s.torn
  {
    AccountedUnlessTorn(Init(capacity), steps, s);
  }
}
