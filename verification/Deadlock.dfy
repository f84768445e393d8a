/**
 When can the hand-off deadlock? The parent waits for the domain socket while a message sits in it;
 only a child can take it, and only the parent can empty the pipe that the children wait for.
 Counting connections says exactly how many slots it takes.
 */
module Deadlock {
  import opened Bytes
  import opened Counting
  import opened Slots
  import opened Protocol
  import opened Invariant
  import opened Steps
  import opened ClosedLoop
  import opened Schedules

  /** The parent is blocked in sem_wait on domain WRITE. */
  predicate ParentBlocked(s: State) {
    s.pc.WaitingWrite? && s.domWrite == 0
  }

  /** The parent is blocked and no child can take a step now. */
  predicate Hostage(s: State) {
    ParentBlocked(s) && forall i :: 0 <= i < |s.children| ==> !ChildEnabled(s, i)
  }

  /** As `Hostage`, and no child is even waiting for its client: nobody will ever move again. */
  predicate Stuck(s: State) {
    Hostage(s) && forall i :: 0 <= i < |s.children| ==> !AwaitsClient(s, i)
  }

  /* ---- too few connections for it ---- */

  lemma NobodyReading(s: State)
    requires DomainToken(s) && Hostage(s)
    ensures |s.socket| == 1 && s.domRead == 1
  {
    CountNone(PostingMarks(s.children));
    forall i | 0 <= i < |s.children| ensures !PostingMarks(s.children)[i] {
      assert !ChildEnabled(s, i);
    }
    CountNone(ReadingMarks(s.children));
    forall i | 0 <= i < |s.children| ensures !ReadingMarks(s.children)[i] {
      assert !ChildEnabled(s, i);
    }
  }

  lemma NobodyLogging(s: State)
    requires LogToken(s) && Hostage(s)
    ensures s.logSem == 1
  {
    CountNone(LogMarks(s.children));
    forall i | 0 <= i < |s.children| ensures !LogMarks(s.children)[i] {
      assert !ChildEnabled(s, i);
    }
  }

  /** With everybody stopped, each child holds a connection of its own. */
  lemma EveryChildHolds(cfg: Config, s: State)
    requires Inv(cfg, s) && Hostage(s)
    ensures forall i :: 0 <= i < |s.children| ==>
              s.children[i].WaitPipe? || (AwaitsClient(s, i) && Holding(s.children[i]))
  {
    NobodyReading(s);
    NobodyLogging(s);
    forall i | 0 <= i < |s.children|
      ensures s.children[i].WaitPipe? || (AwaitsClient(s, i) && Holding(s.children[i]))
    {
      assert !ChildEnabled(s, i);
    }
  }

  /** The slot in the parent's hand is enabled, so at most capacity - 1 connections are anywhere else. */
  lemma LoadBelowCapacity(cfg: Config, s: State)
    requires Inv(cfg, s) && s.pc.WaitingWrite?
    ensures Count(HoldingMarks(s.children)) + |s.socket| + |s.pipe| + 1 <= cfg.capacity
  {
    CountAll(OutMarks(s.slots, -1));
    assert !OutMarks(s.slots, -1)[s.pc.slot];
  }

  lemma HostageNeeds(cfg: Config, s: State)
    requires Inv(cfg, s) && Hostage(s)
    ensures cfg.capacity >= cfg.workers + 2
  {
    EveryChildHolds(cfg, s);
    NobodyReading(s);
    CountAll(HoldingMarks(s.children));
    LoadBelowCapacity(cfg, s);
  }

  lemma StuckNeeds(cfg: Config, s: State)
    requires Inv(cfg, s) && cfg.Valid() && Stuck(s)
    ensures cfg.capacity >= cfg.workers + 3
  {
    EveryChildHolds(cfg, s);
    NobodyReading(s);
    CountAll(HoldingMarks(s.children));
    LoadBelowCapacity(cfg, s);
    assert s.children[0].WaitPipe? && !ChildEnabled(s, 0);
    CountNone(NotifyMarks(s.children));
    forall i | 0 <= i < |s.children| ensures !NotifyMarks(s.children)[i] {
      assert !ChildEnabled(s, i);
    }
  }

  /* ---- once stuck, always stuck ---- */

  /** From a stuck state only clients can do anything, and nothing they do helps. */
  lemma StuckForever(cfg: Config, s: State, step: Step)
    requires Inv(cfg, s) && Stuck(s) && Enabled(cfg, s, step)
    ensures step.Deliver? || step.HangUp? || step.Collect?
    ensures Stuck(Apply(cfg, s, step))
  {
    EveryChildHolds(cfg, s);
    var t := Apply(cfg, s, step);
    forall i | 0 <= i < |t.children| ensures !ChildEnabled(t, i) && !AwaitsClient(t, i) {
      assert s.children[i].WaitPipe? && !ChildEnabled(s, i);
    }
  }

  /** Over whole runs: once stuck, the server never reads, writes or accepts again. */
  lemma {:induction false} StuckRun(cfg: Config, s: State, steps: seq<Step>, t: State)
    requires Inv(cfg, s) && Stuck(s) && Leads(cfg, s, steps, t)
    ensures Stuck(t)
    ensures forall i :: 0 <= i < |steps| ==> steps[i].Deliver? || steps[i].HangUp? || steps[i].Collect?
    decreases |steps|
  {
    if steps != [] {
      StuckForever(cfg, s, steps[0]);
      StepKeepsInv(cfg, s, steps[0]);
      StuckRun(cfg, Apply(cfg, s, steps[0]), steps[1..], t);
    }
  }

  /* ---- nothing else can block the parent ---- */

  lemma {:induction false} AboveAll(fds: set<int>) returns (m: int)
    ensures m > 0 && forall f :: f in fds ==> f < m
  {
    if f :| f in fds {
      var n := AboveAll(fds - {f});
      m := if f < n then n else f + 1;
      assert forall g :: g in fds ==> g == f || g in fds - {f};
    } else {
      m := 1;
    }
  }

  /**
   Outside its wait for the domain socket the parent is never blocked: at every other position it has a
   step, and poll returns whenever a completion is in the pipe.
   */
  lemma ParentMovesOtherwise(cfg: Config, s: State) returns (step: Step)
    requires Reachable(cfg, s) && !ParentBlocked(s)
    requires s.pc.AtPoll? ==> s.pipe != []
    ensures (step.Parent? || step.Accept? || step.Poll?) && Enabled(cfg, s, step)
  {
    ReachableHasInv(cfg, s);
    match s.pc
    case AtPoll => step := Poll(false, seq(cfg.capacity, _ => QUIET));
    case Accepting =>
      FreeIndexIsFree(s.slots);
      var fd := AboveAll(s.open.Keys);
      step := Accept(fd);
    case Sending(_) =>
      SendKeepsInv(cfg, s);
      step := Parent;
    case _ => step := Parent;
  }

  /* ---- enough connections for it ---- */

  /** One more message into the socket, and the parent waits with the next slot in hand. */
  lemma BlockParent(cfg: Config, r: State, s: State, k: nat, i: nat, n: uint32, full: bool) returns (t: State)
    requires Onward(cfg, r, s) && Sweeping(cfg, s, k, i, |s.children|, n, full) && i + 2 <= k
    ensures Onward(cfg, r, t) && ParentBlocked(t)
    ensures t.children == s.children && t.conns == s.conns && t.pipeSem == s.pipeSem
  {
    hide Onward, Staff;
    var a := SendSlot(cfg, r, s, i);
    OnwardStep(cfg, r, a, Parent);
    var b := ApplyParent(cfg, a);
    assert b == a.(slots := Negated(s.slots, i), pc := Scanning(i + 1));
    OnwardStep(cfg, r, b, Parent);
    t := ApplyParent(cfg, b);
  }

  /** With at least C + 2 slots, all children can wait for their clients while the parent waits for them. */
  lemma HostageReachable(cfg: Config) returns (w: World)
    requires cfg.Valid() && cfg.capacity >= cfg.workers + 2
    ensures Visited(cfg, w) && Hostage(w.s)
  {
    hide Onward, Visited, Connected, Board;
    var k := cfg.workers + 2;
    var v, s := StartSweep(cfg, k, 1);
    assert |s.children| == cfg.workers by { BoardSizes(cfg, s, k, 0, 1); }
    var u := DispatchAll(cfg, v.s, s, k, 0, cfg.workers, 1, false);
    assert |u.children| == cfg.workers by { BoardSizes(cfg, u, k, cfg.workers, 1); }
    var t := BlockParent(cfg, v.s, u, k, cfg.workers, 1, false);
    forall q | 0 <= q < |t.children| ensures !ChildEnabled(t, q) {
      assert Parked(u, q, 1);
    }
    OnwardIsVisited(cfg, v, t);
    w := World(t, v.clients);
  }

  /** With at least C + 3 slots everybody can come to wait for everybody else. */
  lemma StuckReachable(cfg: Config) returns (w: World)
    requires cfg.Valid() && cfg.capacity >= cfg.workers + 3
    ensures Visited(cfg, w) && Stuck(w.s)
  {
    hide Onward, Visited, Connected, Board;
    var k := cfg.workers + 3;
    var v, s := StartSweep(cfg, k, 0);
    assert |s.children| == cfg.workers by { BoardSizes(cfg, s, k, 0, 0); }
    var r := FillPipe(cfg, v.s, s, k);
    assert |r.children| == cfg.workers by { BoardSizes(cfg, r, k, 1, 0); }
    var u := DispatchAll(cfg, v.s, r, k, 1, cfg.workers, 0, true);
    assert |u.children| == cfg.workers by { BoardSizes(cfg, u, k, 1 + cfg.workers, 0); }
    var t := BlockParent(cfg, v.s, u, k, 1 + cfg.workers, 0, true);
    forall q | 0 <= q < |t.children| ensures !ChildEnabled(t, q) && !AwaitsClient(t, q) {
      assert Parked(u, q, 0);
    }
    OnwardIsVisited(cfg, v, t);
    w := World(t, v.clients);
  }

  /* ---- the exact bounds ---- */

  /**
   The server can deadlock if and only if it has at least three more slots than children; clients that keep
   to the protocol are enough to bring it about.
   */
  lemma DeadlockBound(cfg: Config)
    requires cfg.Valid()
    ensures (exists s :: Reachable(cfg, s) && Stuck(s)) <==> cfg.capacity >= cfg.workers + 3
    ensures (exists w :: Visited(cfg, w) && Stuck(w.s)) <==> cfg.capacity >= cfg.workers + 3
  {
    if s :| Reachable(cfg, s) && Stuck(s) {
      ReachableHasInv(cfg, s);
      StuckNeeds(cfg, s);
    }
    if w :| Visited(cfg, w) && Stuck(w.s) {
      VisitedIsReachable(cfg, w);
    }
    if cfg.capacity >= cfg.workers + 3 {
      var w := StuckReachable(cfg);
      VisitedIsReachable(cfg, w);
    }
  }

  /** Progress can depend on clients alone if and only if there are at least two more slots than children. */
  lemma HostageBound(cfg: Config)
    requires cfg.Valid()
    ensures (exists s :: Reachable(cfg, s) && Hostage(s)) <==> cfg.capacity >= cfg.workers + 2
    ensures (exists w :: Visited(cfg, w) && Hostage(w.s)) <==> cfg.capacity >= cfg.workers + 2
  {
    if s :| Reachable(cfg, s) && Hostage(s) {
      ReachableHasInv(cfg, s);
      HostageNeeds(cfg, s);
    }
    if w :| Visited(cfg, w) && Hostage(w.s) {
      VisitedIsReachable(cfg, w);
    }
    if cfg.capacity >= cfg.workers + 2 {
      var w := HostageReachable(cfg);
      VisitedIsReachable(cfg, w);
    }
  }
}
