/**
 One whole iteration of the parent's loop, from a poll to the next, with children and clients doing anything in
 between: the listen socket comes first, the pipe second, the clients last, and each iteration does the work of
 one of the three and nothing of the others'.
 */
module Iteration {
  import opened Counting
  import opened Slots
  import opened Protocol
  import opened Invariant
  import opened Steps
  import opened Deadlock
  import opened Schedules
  import opened SweepLink

  /* ---- what a run of steps does ---- */

  function AcceptedIn(steps: seq<Step>): seq<int> {
    if steps == [] then [] else (if steps[0].Accept? then [steps[0].fd] else []) + AcceptedIn(steps[1..])
  }

  /** The numbers that the parent takes out of the pipe. */
  function TakenIn(cfg: Config, s: State, steps: seq<Step>, t: State): seq<int>
    requires Leads(cfg, s, steps, t)
    decreases |steps|
  {
    if steps == [] then []
    else
      var u := Apply(cfg, s, steps[0]);
      (if |u.pipe| < |s.pipe| then [s.pipe[0].fd] else []) + TakenIn(cfg, u, steps[1..], t)
  }

  predicate NoPoll(steps: seq<Step>) {
    forall i :: 0 <= i < |steps| ==> !steps[i].Poll?
  }

  /** Nothing is accepted, taken from the pipe, sent or closed on the way. */
  ghost predicate Idle(cfg: Config, s: State, steps: seq<Step>, t: State)
    requires Leads(cfg, s, steps, t)
  {
    && AcceptedIn(steps) == [] && TakenIn(cfg, s, steps, t) == []
    && SentIn(cfg, s, steps, t) == [] && ClosedIn(cfg, s, steps, t) == {}
  }

  /** A step of a child or a client does nothing that is the parent's to do. */
  lemma OthersStep(cfg: Config, s: State, step: Step)
    requires Enabled(cfg, s, step) && !step.Poll? && !step.Accept? && !step.Parent?
    ensures var t := Apply(cfg, s, step);
            && t.slots == s.slots && t.open == s.open && t.pc == s.pc
            && |t.pipe| >= |s.pipe| && (s.pipe != [] ==> t.pipe[0] == s.pipe[0])
            && SentNow(cfg, s, step) == [] && ClosedNow(cfg, s, step) == {}
  {
    if step.Child? {
      ChildFrame(s, step.i, step.garbage);
    }
    assert s.open.Keys - s.open.Keys == {};
  }

  /** At poll, the parent does nothing before it polls. */
  lemma {:induction false} RestsAtPoll(cfg: Config, s: State, steps: seq<Step>, t: State)
    requires s.pc.AtPoll? && Leads(cfg, s, steps, t) && NoPoll(steps)
    ensures t.slots == s.slots && t.open == s.open && t.pc.AtPoll?
    ensures Idle(cfg, s, steps, t)
    decreases |steps|
  {
    hide Apply, ClosedNow, SentNow;
    if steps != [] {
      OthersStep(cfg, s, steps[0]);
      RestsAtPoll(cfg, Apply(cfg, s, steps[0]), steps[1..], t);
    }
  }

  /* ---- the listen socket ---- */

  /** `after` is `before` with fd, asking for input, in the first free slot. */
  predicate PutInFirstFree(before: seq<PollFd>, after: seq<PollFd>, fd: int) {
    exists i :: 0 <= i < |before| && before[i].fd == 0 && (forall j :: 0 <= j < i ==> before[j].fd != 0)
             && after == before[i := PollFd(fd, true, before[i].revents)]
  }

  predicate HasFree(slots: seq<PollFd>) {
    exists i :: 0 <= i < |slots| && slots[i].fd == 0
  }

  /** One step while the parent stands before accept. */
  lemma AcceptStep(cfg: Config, s: State, step: Step)
    requires s.pc.Accepting? && HasFree(s.slots) && Enabled(cfg, s, step) && !step.Poll?
    ensures var u := Apply(cfg, s, step);
            && !step.Parent? && |u.pipe| >= |s.pipe|
            && SentNow(cfg, s, step) == [] && ClosedNow(cfg, s, step) == {}
            && (step.Accept? ==>
                  && u.pc.AtPoll? && step.fd > 0 && step.fd !in s.open
                  && PutInFirstFree(s.slots, u.slots, step.fd) && u.open.Keys == s.open.Keys + {step.fd})
            && (!step.Accept? ==> u.pc.Accepting? && u.slots == s.slots && u.open == s.open)
  {
    if step.Accept? {
      FreeIsFirst(s.slots, 0);
      var i := FreeIndex(s.slots);
      assert ApplyAccept(cfg, s, step.fd).slots == s.slots[i := PollFd(step.fd, true, s.slots[i].revents)];
    } else {
      OthersStep(cfg, s, step);
    }
  }

  /** Whoever moves while the parent stands before accept, it accepts once and does nothing else. */
  lemma {:induction false} AcceptsOnce(cfg: Config, s: State, steps: seq<Step>, t: State)
    requires s.pc.Accepting? && Leads(cfg, s, steps, t) && NoPoll(steps) && t.pc.AtPoll?
    requires HasFree(s.slots)
    ensures |AcceptedIn(steps)| == 1
    ensures var fd := AcceptedIn(steps)[0];
            fd > 0 && fd !in s.open && PutInFirstFree(s.slots, t.slots, fd) && t.open.Keys == s.open.Keys + {fd}
    ensures TakenIn(cfg, s, steps, t) == [] && SentIn(cfg, s, steps, t) == [] && ClosedIn(cfg, s, steps, t) == {}
    decreases |steps|
  {
    hide PutInFirstFree, HasFree, ClosedNow, SentNow, Apply;
    var u := Apply(cfg, s, steps[0]);
    AcceptStep(cfg, s, steps[0]);
    if steps[0].Accept? {
      RestsAtPoll(cfg, u, steps[1..], t);
    } else {
      AcceptsOnce(cfg, u, steps[1..], t);
    }
  }

  /* ---- the pipe ---- */

  predicate AtPipe(pc: ParentPc) {
    pc.ReadingPipe? || pc.PostingPipe? || pc.Reenabling?
  }

  /** The number that the iteration under way reads, or has read, from the pipe. */
  function Completed(s: State): int
    requires AtPipe(s.pc) && (s.pc.ReadingPipe? ==> s.pipe != [])
  {
    if s.pc.ReadingPipe? then s.pipe[0].fd else s.pc.fd
  }

  lemma PipeStep(cfg: Config, s: State, step: Step)
    requires AtPipe(s.pc) && (s.pc.ReadingPipe? ==> s.pipe != []) && Enabled(cfg, s, step) && !step.Poll?
    ensures var u := Apply(cfg, s, step);
            && !step.Accept? && u.open == s.open
            && SentNow(cfg, s, step) == [] && ClosedNow(cfg, s, step) == {}
            && (u.pc.AtPoll? || (AtPipe(u.pc) && (u.pc.ReadingPipe? ==> u.pipe != [])))
            && (u.pc.AtPoll? ==> s.pc.Reenabling? && u.slots == Reenabled(s.slots, Completed(s)))
            && (!u.pc.AtPoll? ==> u.slots == s.slots && Completed(u) == Completed(s))
            && (if s.pc.ReadingPipe? && !u.pc.ReadingPipe? then |u.pipe| < |s.pipe| else |u.pipe| >= |s.pipe|)
            && (u.pc.ReadingPipe? ==> s.pc.ReadingPipe?)
  {
    hide Reenabled;
    if !step.Parent? {
      OthersStep(cfg, s, step);
    }
    assert s.open.Keys - s.open.Keys == {};
  }

  lemma {:induction false} ReenablesOnce(cfg: Config, s: State, steps: seq<Step>, t: State)
    requires AtPipe(s.pc) && (s.pc.ReadingPipe? ==> s.pipe != [])
    requires Leads(cfg, s, steps, t) && NoPoll(steps) && t.pc.AtPoll?
    ensures t.slots == Reenabled(s.slots, Completed(s)) && t.open == s.open
    ensures TakenIn(cfg, s, steps, t) == if s.pc.ReadingPipe? then [Completed(s)] else []
    ensures AcceptedIn(steps) == [] && SentIn(cfg, s, steps, t) == [] && ClosedIn(cfg, s, steps, t) == {}
    decreases |steps|
  {
    hide Apply, ClosedNow, SentNow, Reenabled;
    var u := Apply(cfg, s, steps[0]);
    PipeStep(cfg, s, steps[0]);
    if u.pc.AtPoll? {
      RestsAtPoll(cfg, u, steps[1..], t);
    } else {
      ReenablesOnce(cfg, u, steps[1..], t);
    }
  }

  /* ---- the sweep ---- */

  predicate AtSweep(pc: ParentPc) {
    pc.Scanning? || pc.WaitingWrite? || pc.Sending? || pc.PostingRead? || pc.Negating?
  }

  lemma {:induction false} SweepKeepsToItself(cfg: Config, s: State, steps: seq<Step>, t: State)
    requires (AtSweep(s.pc) || s.pc.AtPoll?) && Leads(cfg, s, steps, t) && NoPoll(steps)
    ensures AcceptedIn(steps) == [] && TakenIn(cfg, s, steps, t) == []
    decreases |steps|
  {
    if steps != [] {
      SweepStep(cfg, s, steps[0]);
      hide Apply;
      SweepKeepsToItself(cfg, Apply(cfg, s, steps[0]), steps[1..], t);
    }
  }

  lemma SweepStep(cfg: Config, s: State, step: Step)
    requires (AtSweep(s.pc) || s.pc.AtPoll?) && Enabled(cfg, s, step) && !step.Poll?
    ensures var u := Apply(cfg, s, step);
            !step.Accept? && (AtSweep(u.pc) || u.pc.AtPoll?) && |u.pipe| >= |s.pipe|
  {
    if !step.Parent? {
      OthersStep(cfg, s, step);
    }
  }

  /* ---- one iteration ---- */

  /** The parent is about to accept, and can do nothing else. */
  predicate OnlyAccepts(cfg: Config, s: State) {
    s.pc.Accepting? && !ParentEnabled(cfg, s)
  }

  /** Exactly one slot holds -f, and `after` is `before` with that one flipped. */
  predicate FlippedOne(before: seq<PollFd>, after: seq<PollFd>, f: int) {
    f > 0 && exists i ::
      && 0 <= i < |before| && before[i].fd == -f
      && (forall j :: 0 <= j < |before| && j != i ==> before[j].fd != -f)
      && after == before[i := PollFd(f, before[i].events, before[i].revents)]
  }

  lemma FlipsOne(slots: seq<PollFd>, i: nat)
    requires Distinct(slots) && i < |slots| && slots[i].fd < 0
    ensures FlippedOne(slots, Reenabled(slots, -slots[i].fd), -slots[i].fd)
  {
    ReenableIsOneFlip(slots, i);
    forall j | 0 <= j < |slots| && j != i ensures slots[j].fd != slots[i].fd {
      assert Abs(slots[if i < j then i else j].fd) != Abs(slots[if i < j then j else i].fd);
    }
  }

  lemma FirstNoteNamesSlot(cfg: Config, s: State)
    requires Inv(cfg, s) && s.pc.ReadingPipe?
    ensures s.pipe != [] && FlippedOne(s.slots, Reenabled(s.slots, s.pipe[0].fd), s.pipe[0].fd)
  {
    hide FlippedOne, Reenabled;
    var f := s.pipe[0].fd;
    PipeCounts(s.pipe, 0);
    assert Holders(s.children, s.socket, s.pipe, s.pc, f) == Count(OutAs(s.slots, -1, f));
    var i := HeldNamesSlot(s.slots, -1, f);
    FlipsOne(s.slots, i);
  }

  /**
   With a new client reported the parent accepts, even if the pipe holds a number: an accept is all it can do,
   and one is possible; the number accepted goes into the first free slot, and none is taken, sent or closed.
   */
  lemma ListenComesFirst(cfg: Config, s: State, revents: seq<Revents>, steps: seq<Step>, t: State)
    requires Reachable(cfg, s) && PollEnabled(cfg, s, true, revents)
    requires Leads(cfg, ApplyPoll(s, true, revents), steps, t) && NoPoll(steps) && t.pc.AtPoll?
    ensures var u := ApplyPoll(s, true, revents);
            && OnlyAccepts(cfg, u) && (exists fd :: AcceptEnabled(u, fd))
            && |AcceptedIn(steps)| == 1
            && PutInFirstFree(Marked(s.slots, revents), t.slots, AcceptedIn(steps)[0])
            && t.open.Keys == s.open.Keys + {AcceptedIn(steps)[0]} && AcceptedIn(steps)[0] !in s.open
            && TakenIn(cfg, u, steps, t) == [] && SentIn(cfg, u, steps, t) == [] && ClosedIn(cfg, u, steps, t) == {}
  {
    hide Leads;
    var u := ApplyPoll(s, true, revents);
    ReachableStep(cfg, s, Poll(true, revents));
    ReachableHasInv(cfg, u);
    FreeIndexIsFree(u.slots);
    assert HasFree(u.slots);
    hide Inv;
    var fd := AboveAll(u.open.Keys);
    assert AcceptEnabled(u, fd);
    AcceptsOnce(cfg, u, steps, t);
  }

  /** Otherwise a number in the pipe is taken, its one slot flipped, and nothing accepted, sent or closed. */
  lemma PipeComesSecond(cfg: Config, s: State, revents: seq<Revents>, steps: seq<Step>, t: State)
    requires Reachable(cfg, s) && PollEnabled(cfg, s, false, revents) && s.pipe != []
    requires Leads(cfg, ApplyPoll(s, false, revents), steps, t) && NoPoll(steps) && t.pc.AtPoll?
    ensures var u := ApplyPoll(s, false, revents);
            && FlippedOne(Marked(s.slots, revents), t.slots, s.pipe[0].fd) && t.open == s.open
            && TakenIn(cfg, u, steps, t) == [s.pipe[0].fd]
            && AcceptedIn(steps) == [] && SentIn(cfg, u, steps, t) == [] && ClosedIn(cfg, u, steps, t) == {}
  {
    hide Leads;
    var u := ApplyPoll(s, false, revents);
    ReachableStep(cfg, s, Poll(false, revents));
    ReachableHasInv(cfg, u);
    FirstNoteNamesSlot(cfg, u);
    hide Inv, Reenabled, FlippedOne;
    ReenablesOnce(cfg, u, steps, t);
  }

  /** Otherwise the clients are swept, by their flags, and nothing is accepted or taken from the pipe. */
  lemma ClientsComeLast(cfg: Config, s: State, revents: seq<Revents>, steps: seq<Step>, t: State)
    requires Reachable(cfg, s) && PollEnabled(cfg, s, false, revents) && s.pipe == []
    requires Leads(cfg, ApplyPoll(s, false, revents), steps, t) && NoPoll(steps) && t.pc.AtPoll?
    ensures var u := ApplyPoll(s, false, revents);
            && AcceptedIn(steps) == [] && TakenIn(cfg, u, steps, t) == []
            && |u.slots| == |s.slots| == |revents| == |t.slots|
            && forall i :: 0 <= i < |revents| ==>
                 && u.slots[i] == s.slots[i].(revents := revents[i])
                 && Treated(u.slots[i], t.slots[i], true, u.slots[i].fd in SentIn(cfg, u, steps, t),
                            u.slots[i].fd in ClosedIn(cfg, u, steps, t), true)
  {
    hide Leads;
    var u := ApplyPoll(s, false, revents);
    ReachableStep(cfg, s, Poll(false, revents));
    SweepKeepsToItself(cfg, u, steps, t);
    SweepIsAtomic(cfg, u, steps, t);
    hide Treated;
  }
}
