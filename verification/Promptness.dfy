/**
 When is a readable connection dispatched? By the first client sweep whose poll reports it, and that sweep is at
 most MAX_CONNECTIONS iterations away, whatever the other clients and the children do in the meantime.
 */
module Promptness {
  import opened Bytes
  import opened Slots
  import opened Protocol
  import opened Invariant
  import opened Steps
  import opened Refinement
  import opened Fairness
  import opened Schedules
  import opened SweepLink

  /** Slot j is enabled for connection c, whose client is there and has sent something. */
  predicate Ready(s: State, j: nat, c: nat) {
    && j < |s.slots| && s.slots[j].fd > 0 && s.slots[j].events && Names(s.open, s.slots[j].fd, c)
    && c < |s.conns| && s.conns[c].inb != [] && !s.conns[c].eof
  }

  /** A poll that leaves out no enabled slot that is readable. */
  predicate Full(s: State, revents: seq<Revents>) {
    |revents| == |s.slots| &&
    forall i, c :: 0 <= i < |revents| && 0 <= c < |s.conns| && Ready(s, i, c) ==> revents[i].pollin
  }

  /** The parent is at poll, or busy with the listen socket or the pipe. */
  predicate Between(pc: ParentPc) {
    pc.AtPoll? || Bypassing(pc)
  }

  /** No client sweep starts on the way, and client c does not hang up. */
  predicate Detour(cfg: Config, s: State, steps: seq<Step>, c: nat)
    decreases |steps|
  {
    steps != [] ==>
      && Enabled(cfg, s, steps[0]) && steps[0] != HangUp(c)
      && (steps[0].Poll? ==> Bypass(s, steps[0]))
      && Detour(cfg, Apply(cfg, s, steps[0]), steps[1..], c)
  }

  lemma ParentKeepsReady(cfg: Config, s: State, j: nat, c: nat)
    requires Inv(cfg, s) && Between(s.pc) && Ready(s, j, c) && ParentEnabled(cfg, s)
    ensures var t := ApplyParent(cfg, s);
            Between(t.pc) && Ready(t, j, c) && t.slots[j].fd == s.slots[j].fd
  {
    hide Table, Tokens, Paired, Known, Consistent;
    if s.pc.Reenabling? {
      var i := HandNamesSlot(s.children, s.socket, s.pipe, s.pc, s.slots);
    }
  }

  lemma ChildKeepsReady(cfg: Config, s: State, i: nat, garbage: seq<byte>, j: nat, c: nat)
    requires Inv(cfg, s) && Between(s.pc) && Ready(s, j, c)
    requires i < |s.children| && |garbage| == 4 && ChildEnabled(s, i)
    ensures var t := ApplyChild(s, i, garbage);
            t.pc == s.pc && t.slots == s.slots && Ready(t, j, c)
  {
    EnabledUnheld(s.children, s.socket, s.pipe, s.pc, s.slots, j);
    assert Holding(s.children[i]) ==> s.children[i].conn != c;
    hide Inv;
    ChildFrame(s, i, garbage);
    ChildSpares(s, i, garbage, c);
  }

  /** Nothing on a detour touches the slot or its bytes. */
  lemma StepKeepsReady(cfg: Config, s: State, step: Step, j: nat, c: nat)
    requires Inv(cfg, s) && Between(s.pc) && Ready(s, j, c) && Enabled(cfg, s, step)
    requires step != HangUp(c) && (step.Poll? ==> Bypass(s, step))
    ensures var t := Apply(cfg, s, step);
            Between(t.pc) && Ready(t, j, c) && t.slots[j].fd == s.slots[j].fd
  {
    match step
    case Accept(_) => FreeIndexIsFree(s.slots);
    case Parent => ParentKeepsReady(cfg, s, j, c);
    case Child(i, garbage) => ChildKeepsReady(cfg, s, i, garbage, j, c);
    case _ => hide Inv;
  }

  lemma {:induction false} DetourKeepsReady(cfg: Config, s: State, steps: seq<Step>, t: State, j: nat, c: nat)
    requires Inv(cfg, s) && Between(s.pc) && Ready(s, j, c)
    requires Leads(cfg, s, steps, t) && Detour(cfg, s, steps, c)
    ensures Inv(cfg, t) && Between(t.pc) && Ready(t, j, c) && t.slots[j].fd == s.slots[j].fd
    ensures Refills(cfg, s, steps, t) == 0
    decreases |steps|
  {
    hide Inv, Ready, Apply;
    if steps != [] {
      assert j < |s.slots| by { ReadyInRange(s, j, c); }
      StepKeepsReady(cfg, s, steps[0], j, c);
      StepKeepsInv(cfg, s, steps[0]);
      DetourKeepsReady(cfg, Apply(cfg, s, steps[0]), steps[1..], t, j, c);
    }
  }

  lemma ReadyInRange(s: State, j: nat, c: nat)
    requires Ready(s, j, c)
    ensures j < |s.slots|
  {
  }

  lemma {:induction false} JustInIsSent(slots: seq<PollFd>, k: nat, j: nat)
    requires j < k <= |slots| && JustIn(slots[j].revents)
    ensures slots[j].fd in SentBy(slots, k)
  {
    if j < k - 1 {
      JustInIsSent(slots, k - 1, j);
    }
  }

  lemma FullReports(cfg: Config, s: State, revents: seq<Revents>, j: nat, c: nat)
    requires PollEnabled(cfg, s, false, revents) && Full(s, revents) && Ready(s, j, c)
    ensures j < |s.slots| == |revents| && JustIn(revents[j])
  {
    assert PollReports(s, s.slots[j], revents[j]);
  }

  /**
   A readable connection is sent to the children by the first sweep from then on, if that one's poll reports
   what is readable; and at most MAX_CONNECTIONS iterations on the other branches come before it.
   */
  lemma FirstSweepDispatches(cfg: Config, s: State, detour: seq<Step>, t: State, revents: seq<Revents>,
                             sweep: seq<Step>, u: State, j: nat, c: nat)
    requires Reachable(cfg, s) && s.pc.AtPoll? && Ready(s, j, c)
    requires Leads(cfg, s, detour, t) && Detour(cfg, s, detour, c)
    requires PollEnabled(cfg, t, false, revents) && t.pipe == [] && Full(t, revents)
    requires Leads(cfg, ApplyPoll(t, false, revents), sweep, u) && u.pc.AtPoll?
    requires forall i :: 0 <= i < |sweep| ==> !sweep[i].Poll?
    ensures Bypasses(cfg, s, detour, t) <= cfg.capacity
    ensures j < |s.slots| && s.slots[j].fd in SentIn(cfg, ApplyPoll(t, false, revents), sweep, u)
  {
    hide Inv, Ready, Full, PollEnabled, Leads, Detour;
    ReachableHasInv(cfg, s);
    ReadyInRange(s, j, c);
    DetourKeepsReady(cfg, s, detour, t, j, c);
    BypassBound(cfg, s, detour, t);
    FullReports(cfg, t, revents, j, c);
    var v := ApplyPoll(t, false, revents);
    ReachableOn(cfg, s, detour, t);
    ReachableStep(cfg, t, Poll(false, revents));
    SweepIsAtomic(cfg, v, sweep, u);
    JustInIsSent(v.slots, |v.slots|, j);
  }
}
