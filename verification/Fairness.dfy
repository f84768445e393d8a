/**
 No starvation of clients: the listen socket and the pipe come first in the loop's branch, but every
 iteration that takes one of them uses up a unit of a measure that only the client sweep refills.
 */
module Fairness {
  import opened Counting
  import opened Slots
  import opened Protocol
  import opened Invariant
  import opened Steps

  /** An iteration that took the accept or the pipe branch is under way. */
  predicate Bypassing(pc: ParentPc) {
    pc.Accepting? || pc.ReadingPipe? || pc.PostingPipe? || pc.Reenabling?
  }

  /** Free slots plus disabled slots, less the one that the iteration under way has claimed. */
  function Slack(cfg: Config, s: State): int {
    cfg.capacity - s.num + NumOff(s.slots) - Bit(Bypassing(s.pc))
  }

  /** This step starts an iteration on the accept or the pipe branch. */
  predicate Bypass(s: State, step: Step) {
    step.Poll? && (step.listenIn || s.pipe != [])
  }

  /** This step of the client sweep disables a slot or frees one. */
  predicate Refill(s: State, step: Step) {
    && step.Parent?
    && (s.pc.Negating? || (s.pc.Scanning? && s.pc.slot < |s.slots| && Gone(s.slots[s.pc.slot].revents)))
  }

  function Bypasses(cfg: Config, s: State, steps: seq<Step>, t: State): nat
    requires Leads(cfg, s, steps, t)
    decreases |steps|
  {
    if steps == [] then 0
    else Bit(Bypass(s, steps[0])) + Bypasses(cfg, Apply(cfg, s, steps[0]), steps[1..], t)
  }

  function Refills(cfg: Config, s: State, steps: seq<Step>, t: State): nat
    requires Leads(cfg, s, steps, t)
    decreases |steps|
  {
    if steps == [] then 0
    else Bit(Refill(s, steps[0])) + Refills(cfg, Apply(cfg, s, steps[0]), steps[1..], t)
  }

  lemma ReenableSlack(cfg: Config, s: State)
    requires Inv(cfg, s) && s.pc.Reenabling?
    ensures Slack(cfg, ApplyParent(cfg, s)) == Slack(cfg, s)
  {
    hide NumOff, NumLive, Count;
    var i := HandNamesSlot(s.children, s.socket, s.pipe, s.pc, s.slots);
    ReenableIsOneFlip(s.slots, i);
    SlotUpdate(s.slots, i, s.slots[i].(fd := s.pc.fd));
  }

  lemma ScanSlack(cfg: Config, s: State, i: nat)
    requires s.pc == Scanning(i) && i < |s.slots|
    requires Gone(s.slots[i].revents) ==> s.slots[i].fd > 0
    ensures Slack(cfg, ApplyScan(cfg, s, i)) == Slack(cfg, s) + Bit(Gone(s.slots[i].revents))
  {
    if !JustIn(s.slots[i].revents) {
      SlotUpdate(s.slots, i, ApplyScan(cfg, s, i).slots[i]);
    }
  }

  lemma NegateSlack(cfg: Config, s: State, i: nat)
    requires s.pc == Negating(i) && i < |s.slots| && s.slots[i].fd > 0
    ensures Slack(cfg, ApplyParent(cfg, s)) == Slack(cfg, s) + 1
  {
    SlotUpdate(s.slots, i, ApplyParent(cfg, s).slots[i]);
  }

  lemma ParentSlack(cfg: Config, s: State)
    requires Inv(cfg, s) && ParentEnabled(cfg, s)
    ensures Slack(cfg, ApplyParent(cfg, s)) == Slack(cfg, s) + Bit(Refill(s, Parent))
  {
    hide NumOff, Consistent;
    if s.pc.Reenabling? {
      ReenableSlack(cfg, s);
    } else if s.pc.Scanning? && s.pc.slot < |s.slots| {
      ScanSlack(cfg, s, s.pc.slot);
    } else if s.pc.Negating? {
      NegateSlack(cfg, s, s.pc.slot);
    }
  }

  lemma PollSlack(cfg: Config, s: State, listenIn: bool, revents: seq<Revents>)
    requires Inv(cfg, s) && PollEnabled(cfg, s, listenIn, revents)
    ensures Slack(cfg, ApplyPoll(s, listenIn, revents)) + Bit(Bypass(s, Poll(listenIn, revents))) == Slack(cfg, s)
  {
    MarkedKeeps(s.slots, revents, s.num, s.listening, s.open.Keys);
  }

  lemma AcceptSlack(cfg: Config, s: State, fd: int)
    requires Inv(cfg, s) && AcceptEnabled(s, fd)
    ensures Slack(cfg, ApplyAccept(cfg, s, fd)) == Slack(cfg, s)
  {
    AcceptKeeps(s.slots, s.num, s.open.Keys, fd);
  }

  /** The measure falls by one exactly when a bypassing iteration starts, and rises by one at each refill. */
  lemma StepSlack(cfg: Config, s: State, step: Step)
    requires Inv(cfg, s) && Enabled(cfg, s, step)
    ensures Slack(cfg, Apply(cfg, s, step)) + Bit(Bypass(s, step)) == Slack(cfg, s) + Bit(Refill(s, step))
  {
    match step
    case Poll(listenIn, revents) => PollSlack(cfg, s, listenIn, revents);
    case Accept(fd) => AcceptSlack(cfg, s, fd);
    case Parent => ParentSlack(cfg, s);
    case Child(i, garbage) => ChildFrame(s, i, garbage);
    case _ =>
  }

  /** Over any run: slack at the end, plus bypasses, is slack at the start plus refills. */
  lemma {:induction false} RunSlack(cfg: Config, s: State, steps: seq<Step>, t: State)
    requires Inv(cfg, s) && Leads(cfg, s, steps, t)
    ensures Slack(cfg, t) + Bypasses(cfg, s, steps, t) == Slack(cfg, s) + Refills(cfg, s, steps, t)
    decreases |steps|
  {
    if steps != [] {
      StepKeepsInv(cfg, s, steps[0]);
      StepSlack(cfg, s, steps[0]);
      RunSlack(cfg, Apply(cfg, s, steps[0]), steps[1..], t);
    }
  }

  lemma {:induction false} OffIsLive(slots: seq<PollFd>)
    ensures NumOff(slots) <= NumLive(slots)
  {
    if slots != [] {
      var n := |slots| - 1;
      OffIsLive(slots[..n]);
      assert LiveMarks(slots)[..n] == LiveMarks(slots[..n]);
      assert OffMarks(slots)[..n] == OffMarks(slots[..n]);
    }
  }

  /** The slack is between 0 and MAX_CONNECTIONS. */
  lemma SlackBounds(cfg: Config, s: State)
    requires Inv(cfg, s)
    ensures 0 <= Slack(cfg, s) <= cfg.capacity
  {
    OffIsLive(s.slots);
    if s.pc.ReadingPipe? {
      PipeCounts(s.pipe, 0);
      assert Holders(s.children, s.socket, s.pipe, s.pc, s.pipe[0].fd) == Count(OutAs(s.slots, -1, s.pipe[0].fd));
      var i := HeldNamesSlot(s.slots, -1, s.pipe[0].fd);
      CountSome(OffMarks(s.slots), i);
    } else if InHand(s.pc) {
      var i := HandNamesSlot(s.children, s.socket, s.pipe, s.pc, s.slots);
      CountSome(OffMarks(s.slots), i);
    }
  }

  /**
   From any reachable state, a run in which the sweep disables or frees nothing contains at most
   MAX_CONNECTIONS iterations on the accept and pipe branches, whatever children and clients do.
   */
  lemma BypassBound(cfg: Config, s: State, steps: seq<Step>, t: State)
    requires Reachable(cfg, s) && Leads(cfg, s, steps, t)
    requires Refills(cfg, s, steps, t) == 0
    ensures Bypasses(cfg, s, steps, t) <= cfg.capacity
  {
    ReachableHasInv(cfg, s);
    LeadsKeepsInv(cfg, s, steps, t);
    RunSlack(cfg, s, steps, t);
    SlackBounds(cfg, s);
    SlackBounds(cfg, t);
  }

  /** Once the slack is used up, the next poll that returns can only start the client sweep. */
  lemma SweepIsNext(cfg: Config, s: State, listenIn: bool, revents: seq<Revents>)
    requires Reachable(cfg, s) && Slack(cfg, s) == 0
    requires PollEnabled(cfg, s, listenIn, revents)
    ensures ApplyPoll(s, listenIn, revents).pc == Scanning(0)
  {
    ReachableHasInv(cfg, s);
    PollKeepsInv(cfg, s, listenIn, revents);
    StepSlack(cfg, s, Poll(listenIn, revents));
    SlackBounds(cfg, ApplyPoll(s, listenIn, revents));
  }
}
