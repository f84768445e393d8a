/**
 The sweep of the transition system, interleaved with anything children and clients do, leaves in the
 parent's table what `ProcessParent.Parent.HandleSocketAction` computes in one go, sends the same numbers in
 the same order and closes the same descriptors.
 */
module SweepLink {
  import opened Slots
  import opened Protocol
  import opened Invariant
  import opened Steps

  /** How far the sweep over `before` has come, judged by the parent's position. */
  predicate Underway(s: State, before: seq<PollFd>) {
    match s.pc
    case Scanning(i) => i <= |before| && s.slots == SweptTo(before, i)
    case WaitingWrite(i) => i < |before| && s.slots == SweptTo(before, i) && JustIn(before[i].revents)
    case Sending(i) => i < |before| && s.slots == SweptTo(before, i) && JustIn(before[i].revents)
    case PostingRead(i) => i < |before| && s.slots == SweptTo(before, i) && JustIn(before[i].revents)
    case Negating(i) => i < |before| && s.slots == SweptTo(before, i) && JustIn(before[i].revents)
    case AtPoll => s.slots == SweptTo(before, |before|)
    case _ => false
  }

  lemma ScanUnderway(cfg: Config, s: State, before: seq<PollFd>)
    requires Underway(s, before) && s.pc.Scanning? && s.pc.slot <= |s.slots|
    ensures Underway(ApplyScan(cfg, s, s.pc.slot), before)
  {
    if s.pc.slot < |before| {
      SweepOne(before, s.pc.slot);
    }
  }

  lemma NegateUnderway(cfg: Config, s: State, before: seq<PollFd>)
    requires Underway(s, before) && s.pc.Negating?
    ensures Underway(ApplyParent(cfg, s), before)
  {
    SweepOne(before, s.pc.slot);
  }

  lemma StepUnderway(cfg: Config, s: State, step: Step, before: seq<PollFd>)
    requires Underway(s, before) && Enabled(cfg, s, step) && !step.Poll?
    ensures Underway(Apply(cfg, s, step), before)
  {
    match step
    case Parent =>
      if s.pc.Scanning? {
        ScanUnderway(cfg, s, before);
      } else if s.pc.Negating? {
        NegateUnderway(cfg, s, before);
      }
    case Child(i, garbage) => ChildFrame(s, i, garbage);
    case _ =>
  }

  /** How many slots are dispatched or closed by then. */
  function Progress(pc: ParentPc, n: nat): nat {
    match pc
    case Scanning(i) => i
    case WaitingWrite(i) => i
    case Sending(i) => i
    case PostingRead(i) => i + 1
    case Negating(i) => i + 1
    case _ => n
  }

  /** The number that this step puts into the domain socket. */
  function SentNow(cfg: Config, s: State, step: Step): seq<int>
    requires Enabled(cfg, s, step)
  {
    var t := Apply(cfg, s, step);
    if step.Parent? && |t.socket| > |s.socket| then [t.socket[|s.socket|].fd] else []
  }

  /** The descriptor that this step closes in the parent. */
  function ClosedNow(cfg: Config, s: State, step: Step): set<int>
    requires Enabled(cfg, s, step)
  {
    s.open.Keys - Apply(cfg, s, step).open.Keys
  }

  function SentIn(cfg: Config, s: State, steps: seq<Step>, t: State): seq<int>
    requires Leads(cfg, s, steps, t)
    decreases |steps|
  {
    if steps == [] then [] else SentNow(cfg, s, steps[0]) + SentIn(cfg, Apply(cfg, s, steps[0]), steps[1..], t)
  }

  function ClosedIn(cfg: Config, s: State, steps: seq<Step>, t: State): set<int>
    requires Leads(cfg, s, steps, t)
    decreases |steps|
  {
    if steps == [] then {} else ClosedNow(cfg, s, steps[0]) + ClosedIn(cfg, Apply(cfg, s, steps[0]), steps[1..], t)
  }

  /** This step brings the record of numbers sent and descriptors closed up to the parent's new position. */
  ghost predicate Told(cfg: Config, s: State, step: Step, before: seq<PollFd>)
    requires Enabled(cfg, s, step)
  {
    var k, k' := Progress(s.pc, |before|), Progress(Apply(cfg, s, step).pc, |before|);
    && k <= |before| && k' <= |before|
    && SentBy(before, k') == SentBy(before, k) + SentNow(cfg, s, step)
    && ClosedBy(before, k') == ClosedBy(before, k) + ClosedNow(cfg, s, step)
  }

  lemma StepTells(cfg: Config, s: State, step: Step, before: seq<PollFd>)
    requires Inv(cfg, s) && Underway(s, before) && Enabled(cfg, s, step) && !step.Poll?
    ensures Told(cfg, s, step, before)
  {
    match step
    case Parent =>
      hide Told;
      if s.pc.Scanning? && s.pc.slot < |before| {
        ScanTells(cfg, s, before);
      } else if s.pc.Sending? {
        SendTells(cfg, s, before);
      } else {
        RestTells(cfg, s, Parent, before);
      }
    case Accept(_) =>
    case _ => RestTells(cfg, s, step, before);
  }

  /** Every other step sends nothing, closes nothing and leaves the record where it is. */
  lemma RestTells(cfg: Config, s: State, step: Step, before: seq<PollFd>)
    requires Underway(s, before) && Enabled(cfg, s, step) && !step.Poll? && !step.Accept?
    requires step.Parent? ==> !s.pc.Sending? && (s.pc.Scanning? ==> s.pc.slot >= |before|)
    ensures Told(cfg, s, step, before)
  {
    hide SentBy, ClosedBy, SweptTo, ApplyChild, ChildEnabled;
    if step.Child? {
      ChildFrame(s, step.i, step.garbage);
    }
    var t := Apply(cfg, s, step);
    assert t.open == s.open;
    assert Progress(t.pc, |before|) == Progress(s.pc, |before|);
    assert s.open.Keys - s.open.Keys == {};
  }

  /** A turn of the sweep that closes slot i's descriptor closes that one and no other. */
  lemma ScanCloses(cfg: Config, s: State, i: nat)
    requires Table(s) && s.pc == Scanning(i) && i < |s.slots| && Asked(s.slots, i)
    ensures s.open.Keys - ApplyScan(cfg, s, i).open.Keys == if Gone(s.slots[i].revents) then {s.slots[i].fd} else {}
  {
    if Gone(s.slots[i].revents) {
      RemoveKeeps(s.slots, s.num, s.listening, s.open.Keys, i);
      hide Consistent;
      var open := s.open - {s.slots[i].fd};
      assert open.Keys == s.open.Keys - {s.slots[i].fd};
    }
  }

  lemma ScanTells(cfg: Config, s: State, before: seq<PollFd>)
    requires Inv(cfg, s) && ParentEnabled(cfg, s)
    requires Underway(s, before) && s.pc.Scanning? && s.pc.slot < |before|
    ensures Told(cfg, s, Parent, before)
  {
    hide SentBy, ClosedBy, Consistent, Tokens, Owned, Paired;
    var i := s.pc.slot;
    SweepOne(before, i);
    assert s.slots[i] == before[i];
    ScanCloses(cfg, s, i);
    hide SweptTo, Inv;
  }

  lemma SendTells(cfg: Config, s: State, before: seq<PollFd>)
    requires ParentEnabled(cfg, s) && Underway(s, before) && s.pc.Sending?
    ensures Told(cfg, s, Parent, before)
  {
    hide SentBy, ClosedBy;
    SweepOne(before, s.pc.slot);
    assert s.open.Keys - s.open.Keys == {};
  }

  lemma {:induction false} RunUnderway(cfg: Config, s: State, steps: seq<Step>, t: State, before: seq<PollFd>)
    requires Inv(cfg, s) && Underway(s, before) && Leads(cfg, s, steps, t)
    requires forall i :: 0 <= i < |steps| ==> !steps[i].Poll?
    ensures Underway(t, before)
    ensures Progress(s.pc, |before|) <= |before| && Progress(t.pc, |before|) <= |before|
    ensures SentBy(before, Progress(s.pc, |before|)) + SentIn(cfg, s, steps, t)
         == SentBy(before, Progress(t.pc, |before|))
    ensures ClosedBy(before, Progress(s.pc, |before|)) + ClosedIn(cfg, s, steps, t)
         == ClosedBy(before, Progress(t.pc, |before|))
    decreases |steps|
  {
    hide Inv, SentBy, ClosedBy, Underway, SentNow, ClosedNow, Progress, Apply;
    ProgressBound(s, before);
    if steps != [] {
      StepTells(cfg, s, steps[0], before);
      StepUnderway(cfg, s, steps[0], before);
      StepKeepsInv(cfg, s, steps[0]);
      RunUnderway(cfg, Apply(cfg, s, steps[0]), steps[1..], t, before);
    }
  }

  lemma ProgressBound(s: State, before: seq<PollFd>)
    requires Underway(s, before)
    ensures Progress(s.pc, |before|) <= |before|
  {
  }

  /**
   From the start of a sweep to the next poll, whatever happens in between: the table becomes the swept table,
   the numbers sent are those of the entries just readable, in slot order, and the descriptors closed those of
   the entries that hung up.
   */
  lemma SweepIsAtomic(cfg: Config, s: State, steps: seq<Step>, t: State)
    requires Reachable(cfg, s) && s.pc == Scanning(0) && Leads(cfg, s, steps, t) && t.pc.AtPoll?
    requires forall i :: 0 <= i < |steps| ==> !steps[i].Poll?
    ensures t.slots == SweptTo(s.slots, |s.slots|)
    ensures SentIn(cfg, s, steps, t) == SentBy(s.slots, |s.slots|)
    ensures ClosedIn(cfg, s, steps, t) == ClosedBy(s.slots, |s.slots|)
    ensures forall i :: 0 <= i < |s.slots| ==>
              Treated(s.slots[i], t.slots[i], true, s.slots[i].fd in SentIn(cfg, s, steps, t),
                      s.slots[i].fd in ClosedIn(cfg, s, steps, t), true)
  {
    hide Leads;
    ReachableHasInv(cfg, s);
    SweepNone(s.slots);
    RunUnderway(cfg, s, steps, t, s.slots);
    ReadyToSweep(cfg, s);
    hide Inv, SweptTo, SentBy, ClosedBy, Treated;
    forall i | 0 <= i < |s.slots|
      ensures Treated(s.slots[i], t.slots[i], true, s.slots[i].fd in SentIn(cfg, s, steps, t),
                      s.slots[i].fd in ClosedIn(cfg, s, steps, t), true)
    {
      SweepTreats(s.slots, |s.slots|, i);
    }
  }

  lemma ReadyToSweep(cfg: Config, s: State)
    requires Inv(cfg, s) && s.pc == Scanning(0)
    ensures Distinct(s.slots) && Asked(s.slots, 0)
  {
  }
}
