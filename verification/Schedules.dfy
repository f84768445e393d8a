/**
 Runs put together step by step: worlds that a run with closed-loop clients visits, and the schedules that
 fill children, pipe and socket with connections. They are the witnesses for the bounds of modules Deadlock
 and Answering.
 */
module Schedules {
  import opened Bytes
  import opened Slots
  import opened Protocol
  import opened ClosedLoop
  import opened Refinement

  /* ---- worlds that runs visit ---- */

  function End(cfg: Config, w: World, moves: seq<Move>): World
    requires Runs(cfg, w, moves)
    decreases |moves|
  {
    if moves == [] then w else End(cfg, Do(cfg, w, moves[0]), moves[1..])
  }

  /** Some run of the process server with closed-loop clients comes to this world. */
  ghost predicate Visited(cfg: Config, w: World) {
    cfg.Valid() && exists moves :: Runs(cfg, Start(cfg), moves) && End(cfg, Start(cfg), moves) == w
  }

  lemma {:induction false} RunOn(cfg: Config, w: World, moves: seq<Move>, m: Move)
    requires Runs(cfg, w, moves) && MoveEnabled(cfg, End(cfg, w, moves), m)
    ensures Runs(cfg, w, moves + [m]) && End(cfg, w, moves + [m]) == Do(cfg, End(cfg, w, moves), m)
    decreases |moves|
  {
    if moves == [] {
      assert [m][1..] == [] && [] + [m] == [m];
    } else {
      RunOn(cfg, Do(cfg, w, moves[0]), moves[1..], m);
      assert (moves + [m])[1..] == moves[1..] + [m];
    }
  }

  lemma VisitedStart(cfg: Config)
    requires cfg.Valid()
    ensures Visited(cfg, Start(cfg))
  {
    assert Runs(cfg, Start(cfg), []) && End(cfg, Start(cfg), []) == Start(cfg);
  }

  lemma VisitedMove(cfg: Config, w: World, m: Move)
    requires Visited(cfg, w) && MoveEnabled(cfg, w, m)
    ensures Visited(cfg, Do(cfg, w, m))
  {
    var moves :| Runs(cfg, Start(cfg), moves) && End(cfg, Start(cfg), moves) == w;
    RunOn(cfg, Start(cfg), moves, m);
  }

  lemma {:induction false} VisitedRun(cfg: Config, w: World, moves: seq<Move>)
    requires Visited(cfg, w) && Runs(cfg, w, moves)
    ensures Visited(cfg, End(cfg, w, moves))
    decreases |moves|
  {
    if moves != [] {
      VisitedMove(cfg, w, moves[0]);
      VisitedRun(cfg, Do(cfg, w, moves[0]), moves[1..]);
    }
  }

  lemma {:induction false} RunReaches(cfg: Config, w: World, moves: seq<Move>)
    requires Reachable(cfg, w.s) && Runs(cfg, w, moves)
    ensures Reachable(cfg, End(cfg, w, moves).s)
    decreases |moves|
  {
    if moves != [] {
      ReachableStep(cfg, w.s, StepOf(w, moves[0]));
      RunReaches(cfg, Do(cfg, w, moves[0]), moves[1..]);
    }
  }

  lemma ReachableStep(cfg: Config, s: State, step: Step)
    requires Reachable(cfg, s) && Enabled(cfg, s, step)
    ensures Reachable(cfg, Apply(cfg, s, step))
  {
    var t := Apply(cfg, s, step);
    assert Leads(cfg, t, [step][1..], t);
    assert Leads(cfg, s, [step], t);
    ReachableOn(cfg, s, [step], t);
  }

  /** Closed-loop clients are clients: what they lead the server to is reachable. */
  lemma VisitedIsReachable(cfg: Config, w: World)
    requires Visited(cfg, w)
    ensures Reachable(cfg, w.s)
  {
    var moves :| Runs(cfg, Start(cfg), moves) && End(cfg, Start(cfg), moves) == w;
    assert Leads(cfg, Init(cfg), [], Init(cfg));
    RunReaches(cfg, Start(cfg), moves);
  }

  lemma {:induction false} RunHasWorldInv(cfg: Config, w: World, moves: seq<Move>)
    requires WorldInv(cfg, w) && Runs(cfg, w, moves)
    ensures WorldInv(cfg, End(cfg, w, moves))
    decreases |moves|
  {
    hide WorldInv;
    if moves != [] {
      MoveKeepsWorld(cfg, w, moves[0]);
      RunHasWorldInv(cfg, Do(cfg, w, moves[0]), moves[1..]);
    }
  }

  lemma VisitedHasWorldInv(cfg: Config, w: World)
    requires Visited(cfg, w)
    ensures WorldInv(cfg, w)
  {
    var moves :| Runs(cfg, Start(cfg), moves) && End(cfg, Start(cfg), moves) == w;
    StartSound(cfg);
    RunHasWorldInv(cfg, Start(cfg), moves);
  }

  /* ---- the server on its own ---- */

  /** The server's own steps lead from r to s: no client does anything and nobody is accepted. */
  ghost predicate Onward(cfg: Config, r: State, s: State) {
    exists steps :: ServerOnly(steps) && Leads(cfg, r, steps, s)
  }

  predicate ServerOnly(steps: seq<Step>) {
    forall k :: 0 <= k < |steps| ==> steps[k].Poll? || steps[k].Parent? || steps[k].Child?
  }

  lemma OnwardStart(cfg: Config, s: State)
    ensures Onward(cfg, s, s)
  {
    assert ServerOnly([]) && Leads(cfg, s, [], s);
  }

  lemma OnwardStep(cfg: Config, r: State, s: State, step: Step)
    requires Onward(cfg, r, s) && Enabled(cfg, s, step) && ServerOnly([step])
    ensures Onward(cfg, r, Apply(cfg, s, step))
  {
    var steps :| ServerOnly(steps) && Leads(cfg, r, steps, s);
    var t := Apply(cfg, s, step);
    assert Leads(cfg, t, [step][1..], t);
    assert Leads(cfg, s, [step], t);
    LeadsOn(cfg, r, steps, s, [step], t);
    assert ServerOnly(steps + [step]);
  }

  lemma {:induction false} AloneIsVisited(cfg: Config, w: World, steps: seq<Step>, t: State)
    requires Visited(cfg, w) && ServerOnly(steps) && Leads(cfg, w.s, steps, t)
    ensures Visited(cfg, World(t, w.clients))
    decreases |steps|
  {
    if steps != [] {
      VisitedMove(cfg, w, Server(steps[0]));
      AloneIsVisited(cfg, Do(cfg, w, Server(steps[0])), steps[1..], t);
    }
  }

  lemma OnwardIsVisited(cfg: Config, w: World, t: State)
    requires Visited(cfg, w) && Onward(cfg, w.s, t)
    ensures Visited(cfg, World(t, w.clients))
  {
    var steps :| ServerOnly(steps) && Leads(cfg, w.s, steps, t);
    AloneIsVisited(cfg, w, steps, t);
  }

  /* ---- clients arrive ---- */

  const JUST := Revents(true, false, false)

  predicate Calm(cfg: Config, s: State) {
    && |s.slots| == cfg.capacity && |s.children| == cfg.workers
    && s.domWrite == 1 && s.domRead == 0 && s.pipeSem == 1 && s.logSem == 1
    && s.socket == [] && s.pipe == []
    && s.pc == AtPoll
    && (forall q :: 0 <= q < |s.children| ==> s.children[q].WaitRead?)
  }

  function Zeros(n: uint32): (r: seq<byte>)
    ensures |r| == n
  {
    seq(n, _ => 0)
  }

  /**
   k clients are connected, under descriptors 1 to k in the first k slots; the first d have asked for n bytes
   to be received, of which only the header has arrived.
   */
  ghost predicate Connected(cfg: Config, w: World, k: nat, d: nat, n: uint32) {
    var s := w.s;
    && Calm(cfg, s)
    && d <= k <= cfg.capacity
    && |s.conns| == |w.clients| == k && s.num == k && (s.listening <==> k < cfg.capacity)
    && (forall q :: 0 <= q < |s.slots| ==> s.slots[q] == if q < k then PollFd(q + 1, true, QUIET) else EMPTY)
    && (forall f :: f in s.open <==> 1 <= f <= k)
    && (forall f :: 1 <= f <= k ==> s.open[f] == f - 1)
    && (forall q :: 0 <= q < k ==> s.conns[q] == if q < d then Conn(Be32(n), false, []) else FRESH)
    && (forall q :: 0 <= q < k ==> w.clients[q] == if q < d then Asking(n, Zeros(n)) else Thinking)
  }

  lemma {:induction false} FreeIs(slots: seq<PollFd>, k: nat, from: nat)
    requires from <= k < |slots| && slots[k].fd == 0
    requires forall q :: from <= q < k ==> slots[q].fd != 0
    ensures FreeFrom(slots, from) == k
    decreases k - from
  {
    if from < k {
      FreeIs(slots, k, from + 1);
    }
  }

  lemma ConnectOne(cfg: Config, w: World, k: nat) returns (v: World)
    requires Visited(cfg, w) && Connected(cfg, w, k, 0, 0) && k < cfg.capacity
    ensures Visited(cfg, v) && Connected(cfg, v, k + 1, 0, 0)
  {
    hide Visited;
    var quiet := seq(cfg.capacity, _ => QUIET);
    VisitedMove(cfg, w, Server(Poll(true, quiet)));
    var u := World(ApplyPoll(w.s, true, quiet), w.clients);
    assert u.s.slots == w.s.slots;
    FreeIs(u.s.slots, k, 0);
    VisitedMove(cfg, u, Server(Accept(k + 1)));
    v := World(ApplyAccept(cfg, u.s, k + 1), w.clients + [Thinking]);
  }

  lemma {:induction false} ConnectAll(cfg: Config, k: nat) returns (v: World)
    requires cfg.Valid() && k <= cfg.capacity
    ensures Visited(cfg, v) && Connected(cfg, v, k, 0, 0)
  {
    if k == 0 {
      v := Start(cfg);
      VisitedStart(cfg);
    } else {
      var w := ConnectAll(cfg, k - 1);
      v := ConnectOne(cfg, w, k - 1);
    }
  }

  /** Client d asks, and its header arrives. */
  lemma AskOne(cfg: Config, w: World, k: nat, d: nat, n: uint32) returns (v: World)
    requires Visited(cfg, w) && Connected(cfg, w, k, d, n) && d < k
    ensures Visited(cfg, v) && Connected(cfg, v, k, d + 1, n)
  {
    hide Visited, Be32;
    var m := Ask(d, Zeros(n), 4);
    var frame := Framing.Frame(Zeros(n));
    assert frame[..4] == Be32(n) && frame[4..] == Zeros(n);
    VisitedMove(cfg, w, m);
    v := Do(cfg, w, m);
    assert v.s.conns[d].inb == Be32(n) by {
      assert [] + Be32(n) == Be32(n);
    }
  }

  lemma {:induction false} AskAll(cfg: Config, w: World, k: nat, d: nat, n: uint32) returns (v: World)
    requires Visited(cfg, w) && Connected(cfg, w, k, 0, 0) && d <= k
    ensures Visited(cfg, v) && Connected(cfg, v, k, d, n)
  {
    if d == 0 {
      v := w;
    } else {
      var u := AskAll(cfg, w, k, d - 1, n);
      v := AskOne(cfg, u, k, d - 1, n);
    }
  }

  /* ---- the sweep, child by child ---- */

  /** A child that has done all it can with a bare header announcing n bytes. */
  predicate Parked(s: State, q: nat, n: uint32)
    requires q < |s.children|
  {
    if n == 0 then s.children[q].WaitPipe? else
    && s.children[q].Receive?
    && s.children[q].toRead == n && s.children[q].got == 0 && s.children[q].last == 1
    && s.children[q].conn < |s.conns|
    && !s.conns[s.children[q].conn].Readable()
  }

  /** What stays put while the sweep over k reported slots goes on. */
  predicate Board(cfg: Config, s: State, k: nat, i: nat, n: uint32) {
    && |s.slots| == cfg.capacity && |s.children| == cfg.workers && i <= k <= cfg.capacity
    && |s.conns| == k && s.logSem == 1
    && (forall q :: 0 <= q < i ==> s.slots[q].fd == -(q + 1))
    && (forall q :: i <= q < k ==> s.slots[q] == PollFd(q + 1, true, JUST))
    && (forall q :: k <= q < |s.slots| ==> s.slots[q] == EMPTY)
    && (forall f :: i < f <= k ==> f in s.open && s.open[f] == f - 1)
    && (forall q :: i <= q < k ==> s.conns[q] == Conn(Be32(n), false, []))
  }

  lemma BoardSizes(cfg: Config, s: State, k: nat, i: nat, n: uint32)
    requires Board(cfg, s, k, i, n)
    ensures |s.slots| == cfg.capacity && |s.children| == cfg.workers
  {
  }

  predicate Staff(s: State, j: nat, n: uint32) {
    && j <= |s.children|
    && (forall q :: 0 <= q < j ==> Parked(s, q, n))
    && (forall q :: j <= q < |s.children| ==> s.children[q].WaitRead?)
  }

  /** The sweep stands at slot i of k; the first j children are parked; `full` tells whether the pipe holds a number. */
  predicate Sweeping(cfg: Config, s: State, k: nat, i: nat, j: nat, n: uint32, full: bool) {
    && Board(cfg, s, k, i, n)
    && Staff(s, j, n)
    && s.pc == Scanning(i)
    && s.domWrite == 1 && s.domRead == 0 && s.socket == []
    && (if full then s.pipeSem == 0 && |s.pipe| == 1 else s.pipeSem == 1 && s.pipe == [])
  }

  /** k clients have asked for n bytes each and poll reports them all; `w` is the world just before. */
  lemma StartSweep(cfg: Config, k: nat, n: uint32) returns (w: World, t: State)
    requires cfg.Valid() && 0 < k <= cfg.capacity
    ensures Visited(cfg, w) && Connected(cfg, w, k, k, n)
    ensures Onward(cfg, w.s, t) && Sweeping(cfg, t, k, 0, 0, n, false)
  {
    hide Visited;
    var v := ConnectAll(cfg, k);
    w := AskAll(cfg, v, k, k, n);
    var u := w.s;
    var revents := seq(cfg.capacity, q => if q < k then JUST else QUIET);
    forall q | 0 <= q < |revents| ensures PollReports(u, u.slots[q], revents[q]) {
    }
    assert revents[0] != QUIET;
    OnwardStart(cfg, u);
    OnwardStep(cfg, u, u, Poll(false, revents));
    t := ApplyPoll(u, false, revents);
  }

  /** The parent's half of one dispatch, up to the point where it would flip the sign. */
  lemma SendSlot(cfg: Config, r: State, s: State, i: nat) returns (t: State)
    requires Onward(cfg, r, s) && s.pc == Scanning(i) && i < |s.slots|
    requires s.slots[i] == PollFd(i + 1, true, JUST) && i + 1 in s.open
    requires s.domWrite == 1
    ensures Onward(cfg, r, t)
    ensures t == s.(domWrite := 0, domRead := s.domRead + 1,
                    socket := s.socket + [Message(i + 1, s.open[i + 1])], pc := Negating(i))
  {
    hide Onward;
    OnwardStep(cfg, r, s, Parent);
    var s1 := s.(pc := WaitingWrite(i));
    assert ApplyParent(cfg, s) == s1;
    OnwardStep(cfg, r, s1, Parent);
    var s2 := s.(pc := Sending(i), domWrite := 0);
    assert ApplyParent(cfg, s1) == s2;
    OnwardStep(cfg, r, s2, Parent);
    var s3 := s2.(socket := s.socket + [Message(i + 1, s.open[i + 1])], pc := PostingRead(i));
    assert ApplyParent(cfg, s2) == s3;
    OnwardStep(cfg, r, s3, Parent);
    t := s3.(domRead := s.domRead + 1, pc := Negating(i));
    assert ApplyParent(cfg, s3) == t;
  }

  const JUNK: seq<byte> := [0, 0, 0, 0]

  /** Child j takes the one message from the domain socket and is about to read its connection's header. */
  lemma TakeMessage(cfg: Config, r: State, s: State, j: nat, m: Message) returns (t: State)
    requires Onward(cfg, r, s) && j < |s.children| && s.children[j].WaitRead?
    requires s.domRead == 1 && s.socket == [m]
    ensures Onward(cfg, r, t)
    ensures t == s.(domWrite := s.domWrite + 1, domRead := 0, socket := [],
                    children := s.children[j := Header(m.fd, m.conn)])
  {
    hide Onward;
    OnwardStep(cfg, r, s, Child(j, JUNK));
    var s1 := s.(domRead := 0, children := s.children[j := RecvMsg]);
    assert ApplyChild(s, j, JUNK) == s1;
    OnwardStep(cfg, r, s1, Child(j, JUNK));
    var s2 := s1.(socket := [], children := s.children[j := PostWrite(m.fd, m.conn)]);
    assert ApplyChild(s1, j, JUNK) == s2;
    OnwardStep(cfg, r, s2, Child(j, JUNK));
    t := s2.(domWrite := s.domWrite + 1, children := s.children[j := Header(m.fd, m.conn)]);
    assert ApplyChild(s2, j, JUNK) == t;
  }

  /** Child j reads a bare header; if it announces nothing the child goes straight to the pipe. */
  lemma ReadHeader(cfg: Config, r: State, s: State, j: nat, f: int, c: nat, n: uint32) returns (t: State)
    requires Onward(cfg, r, s) && j < |s.children| && s.children[j] == Header(f, c)
    requires c < |s.conns| && s.conns[c] == Conn(Be32(n), false, [])
    ensures Onward(cfg, r, t)
    ensures t == s.(conns := s.conns[c := FRESH],
                    children := s.children[j := if n == 0 then WaitPipe(f, c, 0) else Receive(f, c, n, 0, 1)])
  {
    hide Onward;
    assert Be32(n)[..4] + JUNK[4..] == Be32(n);
    Be32RoundTrip(n);
    OnwardStep(cfg, r, s, Child(j, JUNK));
    var s1 := s.(conns := s.conns[c := FRESH], children := s.children[j := Receive(f, c, n, 0, 1)]);
    assert ApplyChild(s, j, JUNK) == s1;
    if n == 0 {
      OnwardStep(cfg, r, s1, Child(j, JUNK));
      t := s1.(children := s.children[j := WaitPipe(f, c, 0)]);
      assert ApplyChild(s1, j, JUNK) == t;
    } else {
      t := s1;
    }
  }

  lemma IdleFrom(s: State, j: nat, n: uint32)
    requires Staff(s, j, n) && j < |s.children|
    ensures s.children[j].WaitRead?
  {
  }

  /** Slot i goes to child j, which ends up parked. */
  lemma Dispatch(cfg: Config, r: State, s: State, k: nat, i: nat, j: nat, n: uint32, full: bool) returns (t: State)
    requires Onward(cfg, r, s) && Sweeping(cfg, s, k, i, j, n, full)
    requires i < k && j < |s.children|
    ensures Onward(cfg, r, t) && Sweeping(cfg, t, k, i + 1, j + 1, n, full)
  {
    hide Staff, Onward;
    var a := SendSlot(cfg, r, s, i);
    assert a.socket == [Message(i + 1, i)];
    assert s.children[j].WaitRead? by { IdleFrom(s, j, n); }
    var b := TakeMessage(cfg, r, a, j, Message(i + 1, i));
    var c := ReadHeader(cfg, r, b, j, i + 1, i, n);
    OnwardStep(cfg, r, c, Parent);
    t := ApplyParent(cfg, c);
    assert t == c.(slots := Negated(s.slots, i), pc := Scanning(i + 1));
    ParksOne(cfg, s, t, k, i, j, n, full);
  }

  lemma ParksOne(cfg: Config, s: State, t: State, k: nat, i: nat, j: nat, n: uint32, full: bool)
    requires Sweeping(cfg, s, k, i, j, n, full) && i < k && j < |s.children|
    requires t == s.(slots := Negated(s.slots, i), pc := Scanning(i + 1), conns := s.conns[i := FRESH],
                     children := s.children[j := if n == 0 then WaitPipe(i + 1, i, 0) else Receive(i + 1, i, n, 0, 1)])
    ensures Sweeping(cfg, t, k, i + 1, j + 1, n, full)
  {
    forall q | 0 <= q < j + 1 ensures Parked(t, q, n) {
      if q < j {
        assert Parked(s, q, n);
      }
    }
  }

  lemma {:induction false} DispatchAll(cfg: Config, r: State, s: State, k: nat, i: nat, j: nat, n: uint32, full: bool)
    returns (t: State)
    requires Onward(cfg, r, s) && Sweeping(cfg, s, k, i, 0, n, full)
    requires i + j <= k && j <= |s.children|
    ensures Onward(cfg, r, t) && Sweeping(cfg, t, k, i + j, j, n, full)
  {
    if j == 0 {
      t := s;
    } else {
      var u := DispatchAll(cfg, r, s, k, i, j - 1, n, full);
      t := Dispatch(cfg, r, u, k, i + j - 1, j - 1, n, full);
    }
  }

  /** Child 0 puts its number into the empty pipe. */
  lemma Notify(cfg: Config, r: State, s: State, f: int, c: nat) returns (t: State)
    requires Onward(cfg, r, s) && 0 < |s.children| && s.children[0] == WaitPipe(f, c, 0)
    requires s.pipeSem == 1 && s.pipe == []
    ensures Onward(cfg, r, t)
    ensures t == s.(pipeSem := 0, pipe := [Note(f, c)], children := s.children[0 := WaitLog(f, c, 0)])
  {
    hide Onward;
    OnwardStep(cfg, r, s, Child(0, JUNK));
    var s1 := s.(pipeSem := 0, children := s.children[0 := WritePipe(f, c, 0)]);
    assert ApplyChild(s, 0, JUNK) == s1;
    OnwardStep(cfg, r, s1, Child(0, JUNK));
    t := s1.(pipe := [Note(f, c)], children := s.children[0 := WaitLog(f, c, 0)]);
    assert ApplyChild(s1, 0, JUNK) == t;
  }

  /** Child 0 logs, replies, closes and is idle again. */
  lemma FinishTurn(cfg: Config, r: State, s: State, f: int, c: nat) returns (t: State)
    requires Onward(cfg, r, s) && 0 < |s.children| && s.children[0] == WaitLog(f, c, 0)
    requires c < |s.conns| && s.logSem == 1
    ensures Onward(cfg, r, t)
    ensures t == s.(children := s.children[0 := WaitRead],
                    conns := s.conns[c := s.conns[c].(outb := s.conns[c].outb + Be32(0))])
  {
    hide Onward;
    OnwardStep(cfg, r, s, Child(0, JUNK));
    var s3 := s.(logSem := 0, children := s.children[0 := Log(f, c, 0)]);
    assert ApplyChild(s, 0, JUNK) == s3;
    OnwardStep(cfg, r, s3, Child(0, JUNK));
    var s4 := s.(children := s.children[0 := Reply(f, c, 0)]);
    assert ApplyChild(s3, 0, JUNK) == s4;
    OnwardStep(cfg, r, s4, Child(0, JUNK));
    var s5 := s4.(children := s.children[0 := CloseFd(f, c)],
                  conns := s.conns[c := s.conns[c].(outb := s.conns[c].outb + Be32(0))]);
    assert ApplyChild(s4, 0, JUNK) == s5;
    OnwardStep(cfg, r, s5, Child(0, JUNK));
    t := s5.(children := s.children[0 := WaitRead]);
    assert ApplyChild(s5, 0, JUNK) == t;
  }

  /** Child 0 serves slot 0 completely, which leaves its number in the pipe. */
  lemma FillPipe(cfg: Config, r: State, s: State, k: nat) returns (t: State)
    requires Onward(cfg, r, s) && Sweeping(cfg, s, k, 0, 0, 0, false)
    requires 0 < k && 0 < |s.children|
    ensures Onward(cfg, r, t) && Sweeping(cfg, t, k, 1, 0, 0, true)
  {
    hide Onward;
    var a := SendSlot(cfg, r, s, 0);
    assert a.socket == [Message(1, 0)];
    var b := TakeMessage(cfg, r, a, 0, Message(1, 0));
    var c := ReadHeader(cfg, r, b, 0, 1, 0, 0);
    var n := Notify(cfg, r, c, 1, 0);
    var d := FinishTurn(cfg, r, n, 1, 0);
    OnwardStep(cfg, r, d, Parent);
    t := ApplyParent(cfg, d);
    assert t == d.(slots := Negated(s.slots, 0), pc := Scanning(1));
  }
}
