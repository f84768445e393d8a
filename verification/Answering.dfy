/**
 Does a request get its reply? As long as the server has no more slots than children, some step other than
 turning to a new client is enabled while a whole request is unanswered; with one slot more a request can be
 left lying behind children that wait for slow clients. Module Budget bounds how many steps it can take.
 */
module Answering {
  import opened Bytes
  import opened Counting
  import opened Slots
  import opened Protocol
  import opened Invariant
  import opened Steps
  import opened ClosedLoop
  import opened Refinement
  import opened Deadlock
  import opened Schedules

  /* ---- nobody is lost ---- */

  predicate KnownAs(open: map<int, nat>, c: nat) {
    exists f :: f in open && open[f] == c
  }

  /** Every client that has not left is still connected: the parent has a number for it. */
  ghost predicate Kept(w: World) {
    && |w.clients| == |w.s.conns|
    && forall c :: 0 <= c < |w.clients| && !w.clients[c].Left? ==> KnownAs(w.s.open, c)
  }

  /** The parent takes a number out of its table only when that client has left. */
  lemma ParentKeepsName(cfg: Config, w: World, c: nat)
    requires WorldInv(cfg, w) && ParentEnabled(cfg, w.s)
    requires c < |w.clients| && !w.clients[c].Left? && KnownAs(w.s.open, c)
    ensures KnownAs(ApplyParent(cfg, w.s).open, c)
  {
    hide Owned, Consistent;
    var s, t := w.s, ApplyParent(cfg, w.s);
    var f :| f in s.open && s.open[f] == c;
    if s.pc.Scanning? && s.pc.slot < |s.slots| && Gone(s.slots[s.pc.slot].revents) {
      var slot := s.slots[s.pc.slot];
      assert SlotFed(slot, s.open, s.conns);
      var d := s.open[slot.fd];
      assert ConnOk(s.children, s.socket, d, s.conns[d], w.clients[d]);
      assert w.clients[d].Left?;
    }
    assert f in t.open && t.open[f] == c;
  }

  lemma AcceptKeepsName(cfg: Config, w: World, fd: int, c: nat)
    requires AcceptEnabled(w.s, fd) && |w.clients| == |w.s.conns|
    requires c < |w.clients| ==> KnownAs(w.s.open, c)
    requires c <= |w.clients|
    ensures KnownAs(w.s.open[fd := |w.s.conns|], c)
  {
    var open := w.s.open[fd := |w.s.conns|];
    if c < |w.clients| {
      var f :| f in w.s.open && w.s.open[f] == c;
      assert f in open && open[f] == c;
    } else {
      assert fd in open && open[fd] == c;
    }
  }

  lemma MoveKeepsKept(cfg: Config, w: World, m: Move)
    requires WorldInv(cfg, w) && Kept(w) && MoveEnabled(cfg, w, m)
    ensures Kept(Do(cfg, w, m))
  {
    hide KnownAs, ConnOk, Fed, Inv;
    var u := Do(cfg, w, m);
    MoveKeepsWorld(cfg, w, m);
    forall c | 0 <= c < |u.clients| && !u.clients[c].Left? ensures KnownAs(u.s.open, c) {
      match m
      case Server(Accept(fd)) => AcceptKeepsName(cfg, w, fd, c);
      case Server(Parent) => ParentKeepsName(cfg, w, c);
      case Server(Child(i, garbage)) => ChildFrame(w.s, i, garbage);
      case _ =>
    }
  }

  lemma {:induction false} RunKeepsKept(cfg: Config, w: World, moves: seq<Move>)
    requires WorldInv(cfg, w) && Kept(w) && Runs(cfg, w, moves)
    ensures Kept(End(cfg, w, moves))
    decreases |moves|
  {
    hide WorldInv, Kept;
    if moves != [] {
      MoveKeepsWorld(cfg, w, moves[0]);
      MoveKeepsKept(cfg, w, moves[0]);
      RunKeepsKept(cfg, Do(cfg, w, moves[0]), moves[1..]);
    }
  }

  /** Over whole runs: a client that has not left is still connected. */
  lemma VisitedIsKept(cfg: Config, w: World)
    requires Visited(cfg, w)
    ensures Kept(w)
  {
    var moves :| Runs(cfg, Start(cfg), moves) && End(cfg, Start(cfg), moves) == w;
    StartSound(cfg);
    RunKeepsKept(cfg, Start(cfg), moves);
  }

  /* ---- some step is enabled ---- */

  /** All of client c's request has arrived, and no reply has been sent. */
  predicate Unanswered(w: World, c: nat) {
    c < |w.clients| == |w.s.conns| && Sessions(w)[c].Asked? && Sessions(w)[c].whole
  }

  /** A step of the server other than finding a new client at the listen socket. */
  predicate Proceeds(cfg: Config, s: State, step: Step) {
    ServerStep(step) && Enabled(cfg, s, step) && !(step.Poll? && step.listenIn)
  }

  /** A child that serves a whole request can step, or the one it waits for can. */
  lemma ServerOfWholeMoves(cfg: Config, w: World, c: nat, i: nat) returns (j: nat)
    requires WorldInv(cfg, w) && Unanswered(w, c) && w.s.pc.AtPoll? && w.s.pipe == []
    requires i < |w.s.children| && Serving(w.s.children[i], c)
    ensures j < |w.s.children| && ChildEnabled(w.s, j)
  {
    var s := w.s;
    hide Consistent, Owned, Fed, ChildEnabled;
    assert ConnOk(s.children, s.socket, c, s.conns[c], w.clients[c]);
    j := PhaseMoves(s, i, w.clients[c]);
  }

  lemma PhaseMoves(s: State, i: nat, client: Client) returns (j: nat)
    requires PipeToken(s) && LogToken(s) && s.pc.AtPoll? && s.pipe == []
    requires i < |s.children| && Busy(s.children[i]) && !s.children[i].CloseFd? && s.children[i].conn < |s.conns|
    requires Phase(s.children[i], s.conns[s.children[i].conn], client) && client.Asking? && client.rest == []
    ensures j < |s.children| && ChildEnabled(s, j)
  {
    j := i;
    if s.children[i].WaitPipe? && s.pipeSem == 0 {
      CountNone(NotifyMarks(s.children));
      j :| 0 <= j < |s.children| && NotifyMarks(s.children)[j];
    } else if s.children[i].WaitLog? && s.logSem == 0 {
      CountNone(LogMarks(s.children));
      j :| 0 <= j < |s.children| && LogMarks(s.children)[j];
    }
  }

  /** With no more slots than children a queued connection leaves a child free to take it, or one that can step. */
  lemma QueuedMoves(cfg: Config, s: State) returns (j: nat)
    requires Inv(cfg, s) && cfg.capacity <= cfg.workers
    requires s.pc.AtPoll? && s.pipe == [] && s.socket != []
    ensures j < |s.children| && ChildEnabled(s, j)
  {
    SomeChildHoldsNone(cfg, s);
    if forall i :: 0 <= i < |s.children| ==> !ChildEnabled(s, i) {
      EveryChildHoldsAtPoll(s);
    }
    j :| 0 <= j < |s.children| && ChildEnabled(s, j);
  }

  /** One connection is in the socket, so there are too few for all children. */
  lemma SomeChildHoldsNone(cfg: Config, s: State)
    requires Inv(cfg, s) && cfg.capacity <= cfg.workers && s.socket != []
    ensures exists i :: 0 <= i < |s.children| && !Holding(s.children[i])
  {
    var w := Window(s.pc);
    assert Load(s.children, s.socket, s.pipe, s.pc) == Count(OutMarks(s.slots, w));
    assert Count(HoldingMarks(s.children)) < |s.children|;
    CountAll(HoldingMarks(s.children));
    var i :| 0 <= i < |s.children| && !HoldingMarks(s.children)[i];
    assert !Holding(s.children[i]);
  }

  lemma EveryChildHoldsAtPoll(s: State)
    requires Tokens(s) && s.pc.AtPoll? && s.pipe == [] && s.socket != [] && Known(s.children, |s.conns|)
    requires forall i :: 0 <= i < |s.children| ==> !ChildEnabled(s, i)
    ensures forall i :: 0 <= i < |s.children| ==> Holding(s.children[i])
  {
    CountNone(ReadingMarks(s.children));
    forall i | 0 <= i < |s.children| ensures !ReadingMarks(s.children)[i] {
      assert !ChildEnabled(s, i);
    }
    CountNone(LogMarks(s.children));
    forall i | 0 <= i < |s.children| ensures !LogMarks(s.children)[i] {
      assert !ChildEnabled(s, i);
    }
    CountNone(PostingMarks(s.children));
    forall i | 0 <= i < |s.children| ensures !PostingMarks(s.children)[i] {
      assert !ChildEnabled(s, i);
    }
    forall i | 0 <= i < |s.children| ensures Holding(s.children[i]) {
      assert !ChildEnabled(s, i);
    }
  }

  /** A number that nobody holds outside the table is enabled in it. */
  lemma UnheldIsEnabled(cfg: Config, s: State, f: int) returns (i: nat)
    requires Inv(cfg, s) && s.pc.AtPoll? && f in s.open
    requires Holders(s.children, s.socket, s.pipe, s.pc, f) == 0
    ensures i < |s.slots| && s.slots[i].fd == f > 0 && s.slots[i].events
  {
    assert f in LiveFds(s.slots);
    i :| 0 <= i < |s.slots| && s.slots[i].fd != 0 && Abs(s.slots[i].fd) == f;
    assert Holders(s.children, s.socket, s.pipe, s.pc, f) == Count(OutAs(s.slots, -1, f));
    if s.slots[i].fd < 0 {
      CountSome(OutAs(s.slots, -1, f), i);
    }
  }

  /** No child, no message and no completion is about connection c, so nobody holds its number. */
  lemma NobodyHolds(s: State, f: int, c: nat)
    requires Paired(s.children, s.socket, s.pipe, s.open) && Names(s.open, f, c)
    requires s.pc.AtPoll? && s.pipe == []
    requires forall i :: 0 <= i < |s.children| && Holding(s.children[i]) ==> s.children[i].conn != c
    requires forall k :: 0 <= k < |s.socket| ==> s.socket[k].conn != c
    ensures Holders(s.children, s.socket, s.pipe, s.pc, f) == 0
  {
    CountNone(ChildMarks(s.children, f));
    CountNone(SocketMarks(s.socket, f));
    CountNone(PipeMarks(s.pipe, f));
  }

  /** A request that nobody has touched is reported by poll. */
  lemma UntouchedIsReported(cfg: Config, w: World, c: nat) returns (step: Step)
    requires WorldInv(cfg, w) && Kept(w) && w.s.pc.AtPoll? && w.s.pipe == []
    requires c < |w.clients| && Waiting(w.s.conns[c], w.clients[c])
    requires forall i :: 0 <= i < |w.s.children| ==> !Serving(w.s.children[i], c)
    requires forall k :: 0 <= k < |w.s.socket| ==> w.s.socket[k].conn != c
    ensures Proceeds(cfg, w.s, step)
  {
    var s := w.s;
    assert KnownAs(s.open, c);
    var f :| f in s.open && s.open[f] == c;
    forall i | 0 <= i < |s.children| && Holding(s.children[i]) ensures s.children[i].conn != c {
      assert !Serving(s.children[i], c);
    }
    NobodyHolds(s, f, c);
    var i := UnheldIsEnabled(cfg, s, f);
    hide Consistent, Owned, ConnOk;
    var revents := seq(cfg.capacity, q => if q == i then JUST else QUIET);
    assert revents[i] != QUIET;
    step := Poll(false, revents);
  }

  /** At poll, with no completion to take. */
  lemma PollOrChildMoves(cfg: Config, w: World, c: nat) returns (step: Step)
    requires WorldInv(cfg, w) && Kept(w) && cfg.capacity <= cfg.workers
    requires Unanswered(w, c) && w.s.pc.AtPoll? && w.s.pipe == []
    ensures Proceeds(cfg, w.s, step)
  {
    hide Fed, Inv, ChildEnabled;
    var s := w.s;
    assert ConnOk(s.children, s.socket, c, s.conns[c], w.clients[c]);
    if i :| 0 <= i < |s.children| && Serving(s.children[i], c) {
      var j := ServerOfWholeMoves(cfg, w, c, i);
      step := Child(j, JUNK);
    } else if s.socket != [] {
      var j := QueuedMoves(cfg, s);
      step := Child(j, JUNK);
    } else {
      step := UntouchedIsReported(cfg, w, c);
    }
  }

  /**
   With no more slots than children, in every world of every run: while a whole request is unanswered, some
   step other than turning to a new client is enabled, whatever the other clients do or fail to do.
   */
  lemma UnansweredProceeds(cfg: Config, w: World, c: nat) returns (step: Step)
    requires Visited(cfg, w) && cfg.capacity <= cfg.workers
    requires Unanswered(w, c)
    ensures Proceeds(cfg, w.s, step)
  {
    hide Sessions, Inv, Fed;
    VisitedHasWorldInv(cfg, w);
    VisitedIsKept(cfg, w);
    VisitedIsReachable(cfg, w);
    if ParentBlocked(w.s) {
      if Hostage(w.s) {
        HostageNeeds(cfg, w.s);
        assert false;
      }
      var i: nat :| i < |w.s.children| && ChildEnabled(w.s, i);
      step := Child(i, JUNK);
    } else if w.s.pc.AtPoll? && w.s.pipe == [] {
      step := PollOrChildMoves(cfg, w, c);
    } else {
      step := ParentMovesQuietly(cfg, w.s);
    }
  }

  lemma ParentMovesQuietly(cfg: Config, s: State) returns (step: Step)
    requires Reachable(cfg, s) && !ParentBlocked(s)
    requires s.pc.AtPoll? ==> s.pipe != []
    ensures Proceeds(cfg, s, step)
  {
    if s.pc.AtPoll? {
      ReachableHasInv(cfg, s);
      step := Poll(false, seq(cfg.capacity, _ => QUIET));
    } else {
      step := ParentMovesOtherwise(cfg, s);
    }
  }

  /* ---- the exact bound ---- */

  /** A whole request lies there, and all the server could do is turn to a new client. */
  ghost predicate Starved(cfg: Config, w: World) {
    && (exists c :: Unanswered(w, c))
    && forall step :: !Proceeds(cfg, w.s, step)
  }

  /** Past the connected slots the sweep finds nothing and returns to poll. */
  lemma {:induction false} ScanRest(cfg: Config, r: State, s: State, i: nat) returns (t: State)
    requires Onward(cfg, r, s) && s.pc == Scanning(i) && i <= |s.slots|
    requires forall q :: i <= q < |s.slots| ==> s.slots[q] == EMPTY
    ensures Onward(cfg, r, t) && t == s.(pc := AtPoll)
    decreases |s.slots| - i
  {
    hide Onward;
    OnwardStep(cfg, r, s, Parent);
    if i == |s.slots| {
      t := ApplyParent(cfg, s);
    } else {
      assert Quieted(s.slots, i) == s.slots;
      t := ScanRest(cfg, r, s.(pc := Scanning(i + 1)), i + 1);
    }
  }

  /** C children hold slow clients, and one more connection is in the socket. */
  lemma FillChildrenAndSocket(cfg: Config) returns (w: World, t: State)
    requires cfg.Valid() && cfg.capacity >= cfg.workers + 1
    ensures Visited(cfg, w) && Onward(cfg, w.s, t) && Connected(cfg, w, cfg.workers + 1, cfg.workers + 1, 1)
    ensures Shut(cfg, t)
    ensures t.conns[cfg.workers] == Conn(Be32(1), false, [])
  {
    hide Onward, Visited, Connected;
    var k := cfg.workers + 1;
    var s;
    w, s := StartSweep(cfg, k, 1);
    var u := DispatchAll(cfg, w.s, s, k, 0, cfg.workers, 1, false);
    var a := SendSlot(cfg, w.s, u, cfg.workers);
    OnwardStep(cfg, w.s, a, Parent);
    var b := ApplyParent(cfg, a);
    assert b == a.(slots := Negated(u.slots, cfg.workers), pc := Scanning(k));
    t := ScanRest(cfg, w.s, b, k);
    forall q | 0 <= q < |t.children| ensures Parked(t, q, 1) && t.children[q].conn != cfg.workers {
      assert Parked(u, q, 1);
    }
  }

  /** Everybody waits for the C clients that the children serve. */
  predicate Shut(cfg: Config, t: State) {
    && t.pc == AtPoll && t.pipe == [] && |t.children| == cfg.workers && |t.conns| == cfg.workers + 1
    && (forall q :: 0 <= q < |t.slots| ==> t.slots[q].fd <= 0)
    && (forall q :: 0 <= q < |t.children| ==> Parked(t, q, 1) && t.children[q].conn != cfg.workers)
  }

  lemma ShutStopsAll(cfg: Config, t: State, step: Step)
    requires Shut(cfg, t)
    ensures !Proceeds(cfg, t, step)
  {
    match step
    case Poll(listenIn, revents) =>
      if PollEnabled(cfg, t, listenIn, revents) {
        forall i | 0 <= i < |revents| ensures revents[i] == QUIET {
          assert PollReports(t, t.slots[i], revents[i]);
        }
      }
    case Child(i, _) =>
      if i < |t.children| {
        assert Parked(t, i, 1);
      }
    case _ =>
  }

  /** The last byte of the queued connection's request arrives, and nobody can read it. */
  lemma StarvedVisited(cfg: Config) returns (v: World)
    requires cfg.Valid() && cfg.capacity >= cfg.workers + 1
    ensures Visited(cfg, v) && Starved(cfg, v)
  {
    hide Visited, Onward, Be32;
    var w, t := FillChildrenAndSocket(cfg);
    OnwardIsVisited(cfg, w, t);
    var u, c := World(t, w.clients), cfg.workers;
    var m := More(c, 1);
    assert u.clients[c] == Asking(1, Zeros(1));
    VisitedMove(cfg, u, m);
    v := Do(cfg, u, m);
    assert v.clients[c] == Asking(1, []);
    assert Unanswered(v, c);
    assert Shut(cfg, v.s) by {
      forall q | 0 <= q < |v.s.children| ensures Parked(v.s, q, 1) {
        assert Parked(t, q, 1);
      }
    }
    forall step ensures !Proceeds(cfg, v.s, step) {
      ShutStopsAll(cfg, v.s, step);
    }
  }

  /** A whole request can be left with nothing to be done for it if and only if there are more slots than children. */
  lemma StarvedBound(cfg: Config)
    requires cfg.Valid()
    ensures (exists w :: Visited(cfg, w) && Starved(cfg, w)) <==> cfg.capacity >= cfg.workers + 1
  {
    hide Visited;
    if w :| Visited(cfg, w) && Starved(cfg, w) {
      if cfg.capacity <= cfg.workers {
        var c :| Unanswered(w, c);
        var step := UnansweredProceeds(cfg, w, c);
        assert false;
      }
    }
    if cfg.capacity >= cfg.workers + 1 {
      var w := StarvedVisited(cfg);
    }
  }
}
