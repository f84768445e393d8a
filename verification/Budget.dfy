/**
 Every wholly arrived request is answered after a number of server steps that the state and the bytes brought in
 bound: every step of the server spends from a credit, as long as no connection still open belongs to a client
 that has left. Unread bytes pay for the sweep that finds them, free slots for the clients that may yet be
 accepted; the rest is paid by positions. Module Departed shows that the condition is the exact one.
 */
module Budget {
  import opened Bytes
  import opened Counting
  import opened Slots
  import opened Protocol
  import opened Invariant
  import opened Steps
  import opened ClosedLoop
  import opened Refinement
  import opened Schedules
  import opened Answering
  import Stall = Waiting

  /* ---- the budget ---- */

  /** What a child still spends before it waits for the next message. */
  function ChildCost(c: ChildPc): nat {
    match c
    case WaitRead => 0
    case RecvMsg => 16
    case PostWrite(_, _) => 15
    case Header(_, _) => 14
    case Receive(_, _, _, _, last) => if last != 0 then 13 else 12
    case WaitPipe(_, _, _) => 11
    case WritePipe(_, _, _) => 10
    case WaitLog(_, _, _) => 4
    case Log(_, _, _) => 3
    case Reply(_, _, _) => 2
    case CloseFd(_, _) => 1
  }

  const SCAN: nat := 24

  /** What the sweep may spend on the slots from i on. */
  function SlotsCost(cfg: Config, i: nat): nat {
    if i <= cfg.capacity then SCAN * (cfg.capacity - i) else 0
  }

  /** What the parent still spends before it polls again. */
  function ParentCost(cfg: Config, pc: ParentPc): nat {
    match pc
    case AtPoll => 1
    case Accepting => 0
    case ReadingPipe => 0
    case PostingPipe(_, _) => 4
    case Reenabling(_, _) => 3
    case Scanning(i) => SlotsCost(cfg, i) + 2
    case WaitingWrite(i) => SlotsCost(cfg, i + 1) + SCAN + 1
    case Sending(i) => SlotsCost(cfg, i + 1) + SCAN
    case PostingRead(i) => SlotsCost(cfg, i + 1) + SCAN - 1
    case Negating(i) => SlotsCost(cfg, i + 1) + SCAN - 19
  }

  /** A whole sweep, paid by one byte that it finds. */
  function SweepCost(cfg: Config): nat {
    SlotsCost(cfg, 0) + 2
  }

  function ChildCosts(cs: seq<ChildPc>): (r: seq<nat>)
    ensures |r| == |cs|
  {
    seq(|cs|, i requires 0 <= i < |cs| => ChildCost(cs[i]))
  }

  function FreeSlots(cfg: Config, s: State): nat {
    if s.num <= cfg.capacity then cfg.capacity - s.num else 0
  }

  /** A message, or a child that has not read the header yet. */
  predicate Unread(ch: ChildPc) {
    ch.PostWrite? || ch.Header?
  }

  /** The bytes on connection c have been found: reported to the sweep under way, sent, or taken by a child. */
  predicate Found(s: State, c: nat) {
    || (Pending(s.pc) >= 0 &&
        exists j :: Pending(s.pc) <= j < |s.slots| && JustIn(s.slots[j].revents) && Names(s.open, s.slots[j].fd, c))
    || (exists k :: 0 <= k < |s.socket| && s.socket[k].conn == c)
    || (exists i :: 0 <= i < |s.children| && Unread(s.children[i]) && s.children[i].conn == c)
  }

  /** Bytes on connection c that can still pay for a sweep. */
  function Unfound(s: State, c: nat): nat
    requires c < |s.conns|
  {
    var b := |s.conns[c].inb|;
    if Found(s, c) && b > 0 then b - 1 else b
  }

  function Unfounds(s: State): (r: seq<nat>)
    ensures |r| == |s.conns|
  {
    seq(|s.conns|, c requires 0 <= c < |s.conns| => Unfound(s, c))
  }

  /** All but the sweeps. */
  function Rest(cfg: Config, s: State): nat {
    Sum(ChildCosts(s.children)) + Sum(Stall.Backlog(s.conns)) + ParentCost(cfg, s.pc)
    + 17 * s.domRead + 5 * |s.pipe| + 2 * FreeSlots(cfg, s)
  }

  function Credit(cfg: Config, s: State): nat {
    SweepCost(cfg) * Sum(Unfounds(s)) + Rest(cfg, s)
  }

  lemma Cheaper(p: nat, x: nat, y: nat, a: nat, b: nat)
    requires (x <= y && a < b) || (x < y && a < b + p)
    ensures p * x + a < p * y + b
  {
    if x < y {
      assert p * (y - x - 1) >= 0;
      assert p * y == p * x + p + p * (y - x - 1);
    } else {
      assert x == y;
    }
  }

  /** A step pays if it finds no fewer bytes and costs less in the rest. */
  lemma Spends(cfg: Config, s: State, t: State)
    requires |t.conns| == |s.conns|
    requires forall c :: 0 <= c < |s.conns| ==> Unfound(t, c) <= Unfound(s, c)
    requires Rest(cfg, t) < Rest(cfg, s)
    ensures Credit(cfg, t) < Credit(cfg, s)
  {
    SumMonotone(Unfounds(t), Unfounds(s));
    Cheaper(SweepCost(cfg), Sum(Unfounds(t)), Sum(Unfounds(s)), Rest(cfg, t), Rest(cfg, s));
  }

  /* ---- a child's step ---- */

  lemma ChildCostsUpdate(cs: seq<ChildPc>, i: nat, c: ChildPc)
    requires i < |cs|
    ensures Sum(ChildCosts(cs[i := c])) + ChildCost(cs[i]) == Sum(ChildCosts(cs)) + ChildCost(c)
  {
    assert ChildCosts(cs[i := c]) == ChildCosts(cs)[i := ChildCost(c)];
    SumUpdate(ChildCosts(cs), i, ChildCost(c));
  }

  lemma ChildRest(cfg: Config, s: State, i: nat, garbage: seq<byte>)
    requires i < |s.children| && |garbage| == 4 && ChildEnabled(s, i)
    requires Known(s.children, |s.conns|)
    ensures Rest(cfg, ApplyChild(s, i, garbage)) < Rest(cfg, s)
  {
    hide FromBe32, Be32, Sum, ChildCosts, Stall.Backlog, ParentCost;
    var t := ApplyChild(s, i, garbage);
    ChildCostsUpdate(s.children, i, t.children[i]);
    assert t.children == s.children[i := t.children[i]];
    if Busy(s.children[i]) {
      var c := s.children[i].conn;
      Stall.BacklogUpdate(s.conns, c, t.conns[c]);
      assert t.conns == s.conns[c := t.conns[c]];
    }
  }

  lemma ChildFinds(s: State, i: nat, garbage: seq<byte>, c: nat)
    requires i < |s.children| && |garbage| == 4 && ChildEnabled(s, i)
    requires c < |s.conns|
    ensures |ApplyChild(s, i, garbage).conns| == |s.conns|
    ensures Unfound(ApplyChild(s, i, garbage), c) <= Unfound(s, c)
  {
    var t := ApplyChild(s, i, garbage);
    if Found(s, c) && !(s.children[i].Header? && s.children[i].conn == c) {
      ChildKeepsFound(s, i, garbage, c);
    }
  }

  /** What has been found stays found until its header is read. */
  lemma ChildKeepsFound(s: State, i: nat, garbage: seq<byte>, c: nat)
    requires i < |s.children| && |garbage| == 4 && ChildEnabled(s, i)
    requires Found(s, c) && !(s.children[i].Header? && s.children[i].conn == c)
    ensures Found(ApplyChild(s, i, garbage), c)
  {
    var t := ApplyChild(s, i, garbage);
    if k :| 0 <= k < |s.socket| && s.socket[k].conn == c {
      if s.children[i].RecvMsg? {
        if k == 0 {
          assert Unread(t.children[i]) && t.children[i].conn == c;
        } else {
          assert t.socket[k - 1].conn == c;
        }
      } else {
        assert t.socket[k].conn == c;
      }
    } else if p :| 0 <= p < |s.children| && Unread(s.children[p]) && s.children[p].conn == c {
      assert Unread(t.children[p]) && t.children[p].conn == c;
    }
  }

  lemma ChildSpends(cfg: Config, s: State, i: nat, garbage: seq<byte>)
    requires i < |s.children| && |garbage| == 4 && ChildEnabled(s, i)
    requires Known(s.children, |s.conns|)
    ensures Credit(cfg, ApplyChild(s, i, garbage)) < Credit(cfg, s)
  {
    hide Rest, Unfound, Known;
    ChildRest(cfg, s, i, garbage);
    var t := ApplyChild(s, i, garbage);
    ChildFrame(s, i, garbage);
    forall c | 0 <= c < |s.conns| ensures Unfound(t, c) <= Unfound(s, c) {
      ChildFinds(s, i, garbage, c);
    }
    Spends(cfg, s, t);
  }

  /* ---- the parent's steps ---- */

  lemma ParentRest(cfg: Config, s: State)
    requires Inv(cfg, s) && ParentEnabled(cfg, s)
    requires s.pc.Scanning? && s.pc.slot < |s.slots| ==> !Gone(s.slots[s.pc.slot].revents)
    ensures Rest(cfg, ApplyParent(cfg, s)) < Rest(cfg, s)
  {
    hide Sum, ChildCosts, Stall.Backlog, Consistent, Owned, Tokens, Paired, Known, Reenabled;
  }

  lemma ParentKeepsFound(cfg: Config, s: State, c: nat)
    requires Inv(cfg, s) && ParentEnabled(cfg, s)
    requires s.pc.Scanning? && s.pc.slot < |s.slots| ==> !Gone(s.slots[s.pc.slot].revents)
    requires Found(s, c)
    ensures Found(ApplyParent(cfg, s), c)
  {
    hide Inv;
    var t := ApplyParent(cfg, s);
    if k :| 0 <= k < |s.socket| && s.socket[k].conn == c {
      assert t.socket[k].conn == c;
    } else if p :| 0 <= p < |s.children| && Unread(s.children[p]) && s.children[p].conn == c {
      assert Unread(t.children[p]);
    } else {
      var j :| Pending(s.pc) <= j < |s.slots| && JustIn(s.slots[j].revents) && Names(s.open, s.slots[j].fd, c);
      if s.pc.Sending? && j == s.pc.slot {
        assert t.socket[|s.socket|].conn == c;
      } else {
        assert t.slots[j] == s.slots[j];
      }
    }
  }

  lemma ParentSpends(cfg: Config, s: State)
    requires Inv(cfg, s) && ParentEnabled(cfg, s)
    requires s.pc.Scanning? && s.pc.slot < |s.slots| ==> !Gone(s.slots[s.pc.slot].revents)
    ensures Credit(cfg, ApplyParent(cfg, s)) < Credit(cfg, s)
  {
    hide Rest, Found;
    ParentRest(cfg, s);
    var t := ApplyParent(cfg, s);
    assert t.conns == s.conns;
    forall c | 0 <= c < |s.conns| ensures Unfound(t, c) <= Unfound(s, c) {
      if Found(s, c) {
        ParentKeepsFound(cfg, s, c);
      }
    }
    Spends(cfg, s, t);
  }

  /* ---- poll and accept ---- */

  lemma PollKeepsFound(s: State, listenIn: bool, revents: seq<Revents>, c: nat)
    requires s.pc.AtPoll? && |s.slots| == |revents| && Found(s, c)
    ensures Found(ApplyPoll(s, listenIn, revents), c)
  {
    var t := ApplyPoll(s, listenIn, revents);
    if k :| 0 <= k < |s.socket| && s.socket[k].conn == c {
      assert t.socket[k].conn == c;
    } else {
      var p :| 0 <= p < |s.children| && Unread(s.children[p]) && s.children[p].conn == c;
      assert Unread(t.children[p]);
    }
  }

  /** Of no connection that is still open has the client closed its end. */
  predicate AllThere(s: State) {
    forall f :: f in s.open && s.open[f] < |s.conns| ==> !s.conns[s.open[f]].eof
  }

  /** A sweep starts with at least one connection whose bytes had not been found. */
  lemma PollFindsOne(cfg: Config, s: State, revents: seq<Revents>) returns (c: nat)
    requires Inv(cfg, s) && AllThere(s) && PollEnabled(cfg, s, false, revents) && s.pipe == []
    ensures c < |s.conns| && !Found(s, c) && Found(ApplyPoll(s, false, revents), c) && s.conns[c].inb != []
  {
    hide Consistent, Owned;
    var t := ApplyPoll(s, false, revents);
    var j :| 0 <= j < |revents| && revents[j] != QUIET;
    assert PollReports(s, s.slots[j], revents[j]);
    c := s.open[s.slots[j].fd];
    assert JustIn(t.slots[j].revents) && Names(t.open, t.slots[j].fd, c);
    PollKeepsInv(cfg, s, false, revents);
    PendingUnheld(cfg, t, j);
  }

  lemma PollSpends(cfg: Config, s: State, listenIn: bool, revents: seq<Revents>)
    requires Inv(cfg, s) && AllThere(s) && PollEnabled(cfg, s, listenIn, revents)
    ensures Credit(cfg, ApplyPoll(s, listenIn, revents)) < Credit(cfg, s)
  {
    hide Inv, Found, Sum, ChildCosts, Stall.Backlog;
    var t := ApplyPoll(s, listenIn, revents);
    forall c | 0 <= c < |s.conns| ensures Unfound(t, c) <= Unfound(s, c) {
      if Found(s, c) {
        PollKeepsFound(s, listenIn, revents, c);
      }
    }
    if listenIn || s.pipe != [] {
      Spends(cfg, s, t);
    } else {
      var c := PollFindsOne(cfg, s, revents);
      SumSmaller(Unfounds(t), Unfounds(s), c);
      Cheaper(SweepCost(cfg), Sum(Unfounds(t)), Sum(Unfounds(s)), Rest(cfg, t), Rest(cfg, s));
    }
  }

  lemma AcceptKeepsFound(cfg: Config, s: State, fd: int, c: nat)
    requires AcceptEnabled(s, fd) && Found(s, c)
    ensures Found(ApplyAccept(cfg, s, fd), c)
  {
    var t := ApplyAccept(cfg, s, fd);
    if k :| 0 <= k < |s.socket| && s.socket[k].conn == c {
      assert t.socket[k].conn == c;
    } else {
      var p :| 0 <= p < |s.children| && Unread(s.children[p]) && s.children[p].conn == c;
      assert Unread(t.children[p]);
    }
  }

  lemma AcceptSpends(cfg: Config, s: State, fd: int)
    requires Inv(cfg, s) && AcceptEnabled(s, fd)
    ensures Credit(cfg, ApplyAccept(cfg, s, fd)) < Credit(cfg, s)
  {
    var t := ApplyAccept(cfg, s, fd);
    var n := |s.conns|;
    assert s.num < cfg.capacity;
    hide Inv, Found, Sum;
    var known := Unfounds(t)[..n];
    forall c | 0 <= c < n ensures known[c] <= Unfounds(s)[c] {
      if Found(s, c) {
        AcceptKeepsFound(cfg, s, fd, c);
      }
    }
    SumMonotone(known, Unfounds(s));
    SumPush(known, 0);
    assert Unfounds(t) == known + [0];
    assert Stall.Backlog(t.conns) == Stall.Backlog(s.conns) + [0];
    SumPush(Stall.Backlog(s.conns), 0);
    Cheaper(SweepCost(cfg), Sum(Unfounds(t)), Sum(Unfounds(s)), Rest(cfg, t), Rest(cfg, s));
  }

  /* ---- every step of the server ---- */

  /** No connection still open belongs to a client that has left. */
  predicate Present(w: World) {
    forall f :: f in w.s.open && w.s.open[f] < |w.clients| ==> !w.clients[w.s.open[f]].Left?
  }

  lemma PresentAllThere(cfg: Config, w: World)
    requires WorldInv(cfg, w) && Present(w)
    ensures AllThere(w.s)
  {
    forall f | f in w.s.open && w.s.open[f] < |w.s.conns| ensures !w.s.conns[w.s.open[f]].eof {
      var c := w.s.open[f];
      assert ConnOk(w.s.children, w.s.socket, c, w.s.conns[c], w.clients[c]);
    }
  }

  /** The sweep removes nobody who is there. */
  lemma NothingGone(s: State)
    requires Fed(s) && AllThere(s) && s.pc.Scanning? && s.pc.slot < |s.slots|
    ensures !Gone(s.slots[s.pc.slot].revents)
  {
    assert SlotFed(s.slots[s.pc.slot], s.open, s.conns);
  }

  /** As long as no connection still open is a departed client's, every step of the server spends. */
  lemma ServerSpends(cfg: Config, w: World, step: Step)
    requires WorldInv(cfg, w) && Present(w)
    requires ServerStep(step) && Enabled(cfg, w.s, step)
    ensures Credit(cfg, Apply(cfg, w.s, step)) < Credit(cfg, w.s)
  {
    hide Credit, Consistent, Owned, ConnOk;
    PresentAllThere(cfg, w);
    match step
    case Poll(listenIn, revents) => PollSpends(cfg, w.s, listenIn, revents);
    case Accept(fd) => AcceptSpends(cfg, w.s, fd);
    case Parent =>
      if w.s.pc.Scanning? && w.s.pc.slot < |w.s.slots| {
        NothingGone(w.s);
      }
      ParentSpends(cfg, w.s);
    case Child(i, garbage) => ChildSpends(cfg, w.s, i, garbage);
  }

  /** Accepting adds a client who is there, and nothing but leaving makes one leave. */
  lemma MoveKeepsPresent(cfg: Config, w: World, m: Move)
    requires |w.clients| == |w.s.conns| && OpenOk(w.s.open, |w.s.conns|)
    requires Present(w) && MoveEnabled(cfg, w, m) && !m.Leave?
    ensures Present(Do(cfg, w, m))
  {
    match m
    case Server(Child(i, garbage)) => ChildFrame(w.s, i, garbage);
    case _ =>
  }

  /* ---- what clients bring in ---- */

  /** The bytes that a client's move delivers. */
  function Brings(m: Move): nat {
    match m
    case Ask(_, _, first) => first
    case More(_, k) => k
    case _ => 0
  }

  /** A byte pays for the sweep that finds it and for being read. */
  function ByteWorth(cfg: Config): nat {
    SweepCost(cfg) + 1
  }

  /** More bytes on one connection, and nothing else changed. */
  lemma DeliveryWorth(cfg: Config, s: State, c: nat, bytes: seq<byte>)
    requires c < |s.conns|
    ensures var t := s.(conns := s.conns[c := s.conns[c].(inb := s.conns[c].inb + bytes)]);
            Credit(cfg, t) <= Credit(cfg, s) + ByteWorth(cfg) * |bytes|
  {
    var t := s.(conns := s.conns[c := s.conns[c].(inb := s.conns[c].inb + bytes)]);
    FoundAnyway(s, t);
    hide Found;
    assert Unfounds(t) == Unfounds(s)[c := Unfound(t, c)];
    SumUpdate(Unfounds(s), c, Unfound(t, c));
    Stall.BacklogUpdate(s.conns, c, t.conns[c]);
    hide Sum, Unfounds, Stall.Backlog;
    Dearer(SweepCost(cfg), Sum(Unfounds(t)), Sum(Unfounds(s)), |bytes|);
  }

  lemma FoundAnyway(s: State, t: State)
    requires t == s.(conns := t.conns)
    ensures forall c: nat :: Found(t, c) <==> Found(s, c)
  {
  }

  lemma Dearer(p: nat, x: nat, y: nat, k: nat)
    requires x <= y + k
    ensures p * x + k <= p * y + (p + 1) * k
  {
    assert p * (y + k - x) >= 0;
    assert p * (y + k - x) == p * y + p * k - p * x;
    assert (p + 1) * k == p * k + k;
  }

  /** Taking the reply or closing the end delivers nothing. */
  lemma QuietWorth(cfg: Config, s: State, t: State)
    requires t == s.(conns := t.conns) && |t.conns| == |s.conns|
    requires forall c :: 0 <= c < |s.conns| ==> t.conns[c].inb == s.conns[c].inb
    ensures Credit(cfg, t) == Credit(cfg, s)
  {
    FoundAnyway(s, t);
    hide Found;
    assert Unfounds(t) == Unfounds(s);
    assert Stall.Backlog(t.conns) == Stall.Backlog(s.conns);
  }

  lemma ClientEarns(cfg: Config, w: World, m: Move)
    requires MoveEnabled(cfg, w, m) && !m.Server?
    ensures Credit(cfg, Do(cfg, w, m).s) <= Credit(cfg, w.s) + ByteWorth(cfg) * Brings(m)
  {
    hide Credit;
    var u := Do(cfg, w, m);
    match m
    case Ask(c, payload, first) => DeliveryWorth(cfg, w.s, c, Framing.Frame(payload)[..first]);
    case More(c, k) => DeliveryWorth(cfg, w.s, c, w.clients[c].rest[..k]);
    case _ => QuietWorth(cfg, w.s, u.s);
  }

  /* ---- whole runs ---- */

  predicate ServerMoves(moves: seq<Move>) {
    forall k :: 0 <= k < |moves| ==> moves[k].Server?
  }

  /** Nobody leaves. */
  predicate Staying(moves: seq<Move>) {
    forall k :: 0 <= k < |moves| ==> !moves[k].Leave?
  }

  function ServerSteps(moves: seq<Move>): nat {
    if moves == [] then 0 else Bit(moves[0].Server?) + ServerSteps(moves[1..])
  }

  function BroughtIn(moves: seq<Move>): nat {
    if moves == [] then 0 else Brings(moves[0]) + BroughtIn(moves[1..])
  }

  lemma SameLength(cfg: Config, w: World)
    requires WorldInv(cfg, w)
    ensures |w.clients| == |w.s.conns| && OpenOk(w.s.open, |w.s.conns|)
  {
  }

  lemma MoveSpends(cfg: Config, w: World, m: Move)
    requires WorldInv(cfg, w) && Present(w) && MoveEnabled(cfg, w, m) && !m.Leave?
    ensures Bit(m.Server?) + Credit(cfg, Do(cfg, w, m).s) <= Credit(cfg, w.s) + ByteWorth(cfg) * Brings(m)
    ensures WorldInv(cfg, Do(cfg, w, m)) && Present(Do(cfg, w, m))
  {
    hide WorldInv, Credit, Present, ByteWorth, OpenOk, Apply;
    SameLength(cfg, w);
    MoveKeepsWorld(cfg, w, m);
    MoveKeepsPresent(cfg, w, m);
    if m.Server? {
      ServerSpends(cfg, w, m.step);
      assert ByteWorth(cfg) * 0 == 0;
    } else {
      ClientEarns(cfg, w, m);
    }
  }

  /**
   However the server is scheduled and whatever clients do but leave, it takes no more steps than its budget
   and the bytes brought in allow.
   */
  lemma {:induction false} RunSpends(cfg: Config, w: World, moves: seq<Move>)
    requires WorldInv(cfg, w) && Present(w) && Runs(cfg, w, moves) && Staying(moves)
    ensures ServerSteps(moves) + Credit(cfg, End(cfg, w, moves).s)
         <= Credit(cfg, w.s) + ByteWorth(cfg) * BroughtIn(moves)
    ensures WorldInv(cfg, End(cfg, w, moves)) && Present(End(cfg, w, moves))
    decreases |moves|
  {
    hide WorldInv, Credit, Present, ByteWorth, Brings;
    if moves != [] {
      MoveSpends(cfg, w, moves[0]);
      assert Staying(moves[1..]);
      RunSpends(cfg, Do(cfg, w, moves[0]), moves[1..]);
      Distributes(ByteWorth(cfg), Brings(moves[0]), BroughtIn(moves[1..]));
    }
  }

  lemma Distributes(p: nat, x: nat, y: nat)
    ensures p * (x + y) == p * x + p * y
  {
  }

  /* ---- the reply ---- */

  /** Client c's request of n bytes is wholly there and unanswered, or has its reply. */
  predicate AskedOrAnswered(w: World, c: nat, n: uint32) {
    c < |w.clients| == |w.s.conns| && (Sessions(w)[c] == Asked(n, true) || Sessions(w)[c] == Answered(n))
  }

  predicate HasReply(w: World, c: nat, n: uint32) {
    c < |w.clients| == |w.s.conns| && Sessions(w)[c] == Answered(n)
  }

  /** A whole request stays one until it has its reply, whoever moves. */
  lemma MoveKeepsRequest(cfg: Config, w: World, m: Move, c: nat, n: uint32)
    requires WorldInv(cfg, w) && AskedOrAnswered(w, c, n) && !HasReply(w, c, n) && MoveEnabled(cfg, w, m)
    ensures AskedOrAnswered(Do(cfg, w, m), c, n)
  {
    hide WorldInv, Apply;
    MoveRefines(cfg, w, m);
    SameLength(cfg, w);
    SameLength(cfg, Do(cfg, w, m));
    assert w.clients[c].Asking?;
    if m.Server? {
      assert Do(cfg, w, m).clients[c] == w.clients[c];
    }
  }

  /** The server alone takes no reply away. */
  lemma ServerKeepsReply(cfg: Config, w: World, m: Move, c: nat, n: uint32)
    requires WorldInv(cfg, w) && HasReply(w, c, n) && m.Server? && MoveEnabled(cfg, w, m)
    ensures HasReply(Do(cfg, w, m), c, n)
  {
    hide WorldInv, Apply;
    MoveRefines(cfg, w, m);
    SameLength(cfg, w);
    SameLength(cfg, Do(cfg, w, m));
    assert Do(cfg, w, m).clients[c] == w.clients[c];
  }

  /** Over a run: client c has its reply in some world of it, or its whole request still stands at the end. */
  lemma {:induction false} RequestOrReply(cfg: Config, w: World, moves: seq<Move>, c: nat, n: uint32)
    requires WorldInv(cfg, w) && AskedOrAnswered(w, c, n) && Runs(cfg, w, moves)
    ensures || (exists v :: v in Trail(cfg, w, moves) && HasReply(v, c, n))
            || (AskedOrAnswered(End(cfg, w, moves), c, n) && !HasReply(End(cfg, w, moves), c, n))
    ensures ServerMoves(moves) ==> AskedOrAnswered(End(cfg, w, moves), c, n)
    decreases |moves|
  {
    hide WorldInv, AskedOrAnswered, HasReply, Apply;
    if moves == [] {
      assert w in Trail(cfg, w, moves);
    } else {
      var u := Do(cfg, w, moves[0]);
      MoveKeepsWorld(cfg, w, moves[0]);
      assert ServerMoves(moves) ==> ServerMoves(moves[1..]) && moves[0].Server?;
      if HasReply(w, c, n) {
        assert w in Trail(cfg, w, moves);
        if ServerMoves(moves) {
          ServerKeepsReply(cfg, w, moves[0], c, n);
          ReplyIsAskedOrAnswered(u, c, n);
          RequestOrReply(cfg, u, moves[1..], c, n);
        }
      } else {
        MoveKeepsRequest(cfg, w, moves[0], c, n);
        RequestOrReply(cfg, u, moves[1..], c, n);
        if v :| v in Trail(cfg, u, moves[1..]) && HasReply(v, c, n) {
          assert v in Trail(cfg, w, moves);
        }
      }
    }
  }

  lemma ReplyIsAskedOrAnswered(w: World, c: nat, n: uint32)
    requires HasReply(w, c, n)
    ensures AskedOrAnswered(w, c, n)
  {
  }

  /**
   The reply comes, under load. With no more slots than children, from any world that a run visits in which no
   connection still open is a departed client's: whatever clients ask and take but leave, however the server is
   scheduled and whomever it accepts, a wholly arrived request of n bytes has its one reply, n, in some world
   of the run, or it still stands at the end and the server has a step to take other than turning to a new
   client; and the server takes no more steps than its budget and the bytes brought in allow.
   */
  lemma AnsweredUnderLoad(cfg: Config, w: World, moves: seq<Move>, c: nat, n: uint32)
    requires Visited(cfg, w) && Present(w) && cfg.capacity <= cfg.workers
    requires c < |w.clients| == |w.s.conns| && Sessions(w)[c] == Asked(n, true)
    requires Runs(cfg, w, moves) && Staying(moves)
    ensures ServerSteps(moves) <= Credit(cfg, w.s) + ByteWorth(cfg) * BroughtIn(moves)
    ensures var v := End(cfg, w, moves);
            || (exists u :: u in Trail(cfg, w, moves) && HasReply(u, c, n))
            || (c < |v.clients| == |v.s.conns| && Sessions(v)[c] == Asked(n, true)
                && ServerSteps(moves) < Credit(cfg, w.s) + ByteWorth(cfg) * BroughtIn(moves)
                && exists step :: Proceeds(cfg, v.s, step))
  {
    hide Credit, Visited, WorldInv, Present, Runs, ByteWorth;
    var v := End(cfg, w, moves);
    VisitedHasWorldInv(cfg, w);
    RunSpends(cfg, w, moves);
    RequestOrReply(cfg, w, moves, c, n);
    VisitedRun(cfg, w, moves);
    if AskedOrAnswered(v, c, n) && !HasReply(v, c, n) {
      var step := UnansweredProceeds(cfg, v, c);
      ServerSpends(cfg, v, step);
    }
  }

  /** With clients silent: the reply stands within as many server steps as the budget has. */
  lemma EveryRequestAnswered(cfg: Config, w: World, moves: seq<Move>, c: nat, n: uint32)
    requires Visited(cfg, w) && Present(w) && cfg.capacity <= cfg.workers
    requires c < |w.clients| == |w.s.conns| && Sessions(w)[c] == Asked(n, true)
    requires Runs(cfg, w, moves) && ServerMoves(moves)
    ensures |moves| <= Credit(cfg, w.s)
    ensures var v := End(cfg, w, moves);
            || HasReply(v, c, n)
            || (c < |v.clients| == |v.s.conns| && Sessions(v)[c] == Asked(n, true)
                && |moves| < Credit(cfg, w.s) && exists step :: Proceeds(cfg, v.s, step))
  {
    hide Credit, Visited, WorldInv, Present, Runs, ByteWorth;
    var v := End(cfg, w, moves);
    VisitedHasWorldInv(cfg, w);
    SilentRun(moves);
    RunSpends(cfg, w, moves);
    RequestOrReply(cfg, w, moves, c, n);
    VisitedRun(cfg, w, moves);
    if !HasReply(v, c, n) {
      var step := UnansweredProceeds(cfg, v, c);
      ServerSpends(cfg, v, step);
    }
  }

  lemma {:induction false} SilentRun(moves: seq<Move>)
    requires ServerMoves(moves)
    ensures ServerSteps(moves) == |moves| && BroughtIn(moves) == 0
  {
    if moves != [] {
      SilentRun(moves[1..]);
    }
  }
}
