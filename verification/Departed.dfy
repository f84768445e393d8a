/**
 What a client that has left can do to a server that has not noticed: as long as its connection is open and the
 sweep under way is not about to remove it, poll may report the connection as readable and no more; it is
 dispatched, a child finds its end, answers and notifies, and the parent enables it again, without end. So the
 credit of module Budget bounds the server's steps on exactly the worlds where no such connection is open.
 */
module Departed {
  import opened Bytes
  import opened Counting
  import opened Slots
  import opened Protocol
  import opened Invariant
  import opened Steps
  import opened ClosedLoop
  import opened Refinement
  import opened Deadlock
  import opened Schedules
  import opened Answering
  import opened Budget

  /** The sweep under way will remove connection c. */
  predicate Condemned(s: State, c: nat) {
    Pending(s.pc) >= 0 &&
    exists j :: Pending(s.pc) <= j < |s.slots| && Gone(s.slots[j].revents) && Names(s.open, s.slots[j].fd, c)
  }

  /** Connection c is open though its client is gone. */
  predicate Lingers(s: State, c: nat) {
    c < |s.conns| && s.conns[c].eof && KnownAs(s.open, c) && !Condemned(s, c)
  }

  lemma ChildKeepsLingering(s: State, i: nat, garbage: seq<byte>, c: nat)
    requires Lingers(s, c) && i < |s.children| && |garbage| == 4 && ChildEnabled(s, i)
    ensures Lingers(ApplyChild(s, i, garbage), c)
  {
    ChildFrame(s, i, garbage);
    ChildSpares(s, i, garbage, c);
  }

  lemma ParentSparesLingering(cfg: Config, s: State, c: nat)
    requires Inv(cfg, s) && Lingers(s, c) && ParentEnabled(cfg, s)
    ensures KnownAs(ApplyParent(cfg, s).open, c)
  {
    hide Consistent, Owned, Tokens, Paired, Known;
    var t := ApplyParent(cfg, s);
    var f :| f in s.open && s.open[f] == c;
    if s.pc.Scanning? && s.pc.slot < |s.slots| && Gone(s.slots[s.pc.slot].revents) {
      assert !Names(s.open, s.slots[s.pc.slot].fd, c);
    }
    assert f in t.open && t.open[f] == c;
  }

  lemma ParentCondemnsNobody(cfg: Config, s: State, c: nat)
    requires ParentEnabled(cfg, s)
    ensures Condemned(ApplyParent(cfg, s), c) ==> Condemned(s, c)
  {
    hide Reenabled;
    var t := ApplyParent(cfg, s);
    if Condemned(t, c) {
      var j :| Pending(t.pc) <= j < |t.slots| && Gone(t.slots[j].revents) && Names(t.open, t.slots[j].fd, c);
      assert s.slots[j] == t.slots[j];
    }
  }

  lemma ParentKeepsLingering(cfg: Config, s: State, c: nat)
    requires Inv(cfg, s) && Lingers(s, c) && ParentEnabled(cfg, s)
    ensures Lingers(ApplyParent(cfg, s), c)
  {
    ParentSparesLingering(cfg, s, c);
    ParentCondemnsNobody(cfg, s, c);
    hide Condemned, KnownAs, Inv;
  }

  /** A poll that reports no hang-up condemns nobody. */
  lemma PollKeepsLingering(s: State, revents: seq<Revents>, c: nat)
    requires Lingers(s, c) && s.pc.AtPoll? && |revents| == |s.slots|
    requires forall i :: 0 <= i < |revents| ==> !Gone(revents[i])
    ensures Lingers(ApplyPoll(s, false, revents), c)
  {
  }

  lemma AcceptKeepsLingering(cfg: Config, s: State, fd: int, c: nat)
    requires Lingers(s, c) && AcceptEnabled(s, fd)
    ensures Lingers(ApplyAccept(cfg, s, fd), c)
  {
    var f :| f in s.open && s.open[f] == c;
    var t := ApplyAccept(cfg, s, fd);
    assert f in t.open && t.open[f] == c;
  }

  /** A child that holds a connection at its end never waits for a client. */
  lemma HolderMoves(s: State, i: nat) returns (j: nat)
    requires PipeToken(s) && s.pc.AtPoll? && s.pipe == []
    requires i < |s.children| && Holding(s.children[i])
    requires s.children[i].conn < |s.conns| && s.conns[s.children[i].conn].eof
    ensures j < |s.children| && ChildEnabled(s, j)
  {
    j := i;
    if s.children[i].WaitPipe? && s.pipeSem == 0 {
      CountNone(NotifyMarks(s.children));
      j :| 0 <= j < |s.children| && NotifyMarks(s.children)[j];
    }
  }

  lemma ChildLingers(cfg: Config, s: State, i: nat, c: nat) returns (step: Step)
    requires Lingers(s, c) && i < |s.children| && ChildEnabled(s, i)
    ensures Proceeds(cfg, s, step) && Lingers(Apply(cfg, s, step), c)
  {
    step := Child(i, JUNK);
    ChildKeepsLingering(s, i, JUNK, c);
  }

  /** Nobody holds the connection, so poll finds it readable. */
  lemma LingeringIsReported(cfg: Config, s: State, c: nat) returns (step: Step)
    requires Inv(cfg, s) && Lingers(s, c) && s.pc.AtPoll? && s.pipe == []
    requires forall i :: 0 <= i < |s.children| && Holding(s.children[i]) ==> s.children[i].conn != c
    requires forall k :: 0 <= k < |s.socket| ==> s.socket[k].conn != c
    ensures Proceeds(cfg, s, step) && Lingers(Apply(cfg, s, step), c)
  {
    var f :| f in s.open && s.open[f] == c;
    NobodyHolds(s, f, c);
    var i := UnheldIsEnabled(cfg, s, f);
    hide Consistent, Owned, Lingers;
    assert s.conns[c].eof by { LingersAtEnd(s, c); }
    var revents := seq(cfg.capacity, q => if q == i then JUST else QUIET);
    assert revents[i] != QUIET;
    step := Poll(false, revents);
    PollKeepsLingering(s, revents, c);
  }

  lemma LingersAtEnd(s: State, c: nat)
    requires Lingers(s, c)
    ensures c < |s.conns| && s.conns[c].eof
  {
  }

  lemma LingeringAtPoll(cfg: Config, s: State, c: nat) returns (step: Step)
    requires Inv(cfg, s) && cfg.capacity <= cfg.workers
    requires Lingers(s, c) && s.pc.AtPoll? && s.pipe == []
    ensures Proceeds(cfg, s, step) && Lingers(Apply(cfg, s, step), c)
  {
    if i :| 0 <= i < |s.children| && Holding(s.children[i]) && s.children[i].conn == c {
      var j := HolderMoves(s, i);
      step := ChildLingers(cfg, s, j, c);
    } else if s.socket != [] {
      var j := QueuedMoves(cfg, s);
      step := ChildLingers(cfg, s, j, c);
    } else {
      step := LingeringIsReported(cfg, s, c);
    }
  }

  /** There is always a step that leaves the connection where it is. */
  lemma LingeringStep(cfg: Config, s: State, c: nat) returns (step: Step)
    requires Reachable(cfg, s) && cfg.capacity <= cfg.workers && Lingers(s, c)
    ensures Proceeds(cfg, s, step) && Lingers(Apply(cfg, s, step), c)
  {
    hide Lingers;
    ReachableHasInv(cfg, s);
    if ParentBlocked(s) {
      if Hostage(s) {
        HostageNeeds(cfg, s);
      }
      var i: nat :| i < |s.children| && ChildEnabled(s, i);
      step := ChildLingers(cfg, s, i, c);
    } else if s.pc.AtPoll? && s.pipe == [] {
      step := LingeringAtPoll(cfg, s, c);
    } else if s.pc.AtPoll? {
      var quiet := seq(cfg.capacity, _ => QUIET);
      step := Poll(false, quiet);
      PollKeepsLingering(s, quiet, c);
    } else {
      step := ParentMovesOtherwise(cfg, s);
      if step.Parent? {
        ParentKeepsLingering(cfg, s, c);
      } else {
        AcceptKeepsLingering(cfg, s, step.fd, c);
      }
    }
  }

  /** Server-only runs of any length. */
  lemma {:induction false} RunsOfAnyLength(cfg: Config, w: World, c: nat, n: nat) returns (moves: seq<Move>)
    requires Visited(cfg, w) && cfg.capacity <= cfg.workers && Lingers(w.s, c)
    ensures Runs(cfg, w, moves) && ServerMoves(moves) && |moves| == n
    decreases n
  {
    hide Lingers, Visited, Apply;
    if n == 0 {
      moves := [];
    } else {
      VisitedIsReachable(cfg, w);
      var step := LingeringStep(cfg, w.s, c);
      VisitedMove(cfg, w, Server(step));
      var rest := RunsOfAnyLength(cfg, Do(cfg, w, Server(step)), c, n - 1);
      moves := [Server(step)] + rest;
      assert moves[1..] == rest;
    }
  }

  /** b server steps are all that is possible while clients are silent. */
  ghost predicate Within(cfg: Config, w: World, b: nat) {
    forall moves :: Runs(cfg, w, moves) && ServerMoves(moves) ==> |moves| <= b
  }

  /**
   Wherever the parent polls, with no more slots than children: there is a bound on the server's steps while
   clients are silent if and only if no connection still open belongs to a client that has left.
   */
  lemma BoundedIffPresent(cfg: Config, w: World)
    requires Visited(cfg, w) && w.s.pc.AtPoll? && cfg.capacity <= cfg.workers
    ensures (exists b: nat :: Within(cfg, w, b)) <==> Present(w)
  {
    hide Visited, WorldInv, Credit;
    VisitedHasWorldInv(cfg, w);
    if Present(w) {
      forall moves | Runs(cfg, w, moves) && ServerMoves(moves) ensures |moves| <= Credit(cfg, w.s) {
        SilentRun(moves);
        hide Present, Runs;
        RunSpends(cfg, w, moves);
        assert ByteWorth(cfg) * 0 == 0;
      }
      assert Within(cfg, w, Credit(cfg, w.s));
    } else {
      var f :| f in w.s.open && w.s.open[f] < |w.clients| && w.clients[w.s.open[f]].Left?;
      var c := w.s.open[f];
      LeftAtEnd(cfg, w, c);
      assert KnownAs(w.s.open, c) && Lingers(w.s, c);
      forall b: nat ensures !Within(cfg, w, b) {
        Endless(cfg, w, c, b);
      }
    }
  }

  lemma Endless(cfg: Config, w: World, c: nat, b: nat)
    requires Visited(cfg, w) && cfg.capacity <= cfg.workers && Lingers(w.s, c)
    ensures !Within(cfg, w, b)
  {
    hide Visited, Lingers;
    var moves := RunsOfAnyLength(cfg, w, c, b + 1);
    assert !(Runs(cfg, w, moves) && ServerMoves(moves) ==> |moves| <= b);
  }

  lemma LeftAtEnd(cfg: Config, w: World, c: nat)
    requires WorldInv(cfg, w) && c < |w.clients| && w.clients[c].Left?
    ensures c < |w.s.conns| && w.s.conns[c].eof
  {
    assert ConnOk(w.s.children, w.s.socket, c, w.s.conns[c], w.clients[c]);
  }

  /** Such a world is visited: one client connects and leaves. */
  lemma DepartedVisited(cfg: Config) returns (w: World)
    requires cfg.Valid()
    ensures Visited(cfg, w) && w.s.pc.AtPoll? && !Present(w)
    ensures cfg.capacity <= cfg.workers ==> forall b: nat :: !Within(cfg, w, b)
  {
    hide Visited;
    var v := ConnectAll(cfg, 1);
    VisitedMove(cfg, v, Leave(0));
    w := Do(cfg, v, Leave(0));
    assert 1 in w.s.open && w.s.open[1] == 0 && w.clients[0].Left?;
    if cfg.capacity <= cfg.workers {
      hide Within, Present;
      BoundedIffPresent(cfg, w);
    }
  }
}
