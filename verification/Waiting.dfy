/**
 How long can the parent be kept waiting for the domain socket? Where the server has at most one slot more
 than children, every schedule of the children lets it go on after a number of steps that the state bounds:
 no child can go round its loop a second time while the parent waits, because the message in the socket
 has to be taken first.
 */
module Waiting {
  import opened Bytes
  import opened Counting
  import opened Protocol
  import opened Invariant
  import opened Deadlock
  import opened Schedules

  /** Steps that a child has before it at most, up to its post on domain WRITE, bytes aside. */
  function Rank(c: ChildPc): nat {
    match c
    case Header(_, _) => 12
    case Receive(_, _, _, _, last) => if last != 0 then 11 else 10
    case WaitPipe(_, _, _) => 9
    case WritePipe(_, _, _) => 8
    case WaitLog(_, _, _) => 7
    case Log(_, _, _) => 6
    case Reply(_, _, _) => 5
    case CloseFd(_, _) => 4
    case WaitRead => 3
    case RecvMsg => 2
    case PostWrite(_, _) => 1
  }

  function Ranks(cs: seq<ChildPc>): (r: seq<nat>)
    ensures |r| == |cs|
  {
    seq(|cs|, i requires 0 <= i < |cs| => Rank(cs[i]))
  }

  /** Bytes that have arrived on each connection and are not read. */
  function Backlog(conns: seq<Conn>): (r: seq<nat>)
    ensures |r| == |conns|
  {
    seq(|conns|, i requires 0 <= i < |conns| => |conns[i].inb|)
  }

  function Work(s: State): nat {
    Sum(Ranks(s.children)) + Sum(Backlog(s.conns))
  }

  lemma RanksUpdate(cs: seq<ChildPc>, i: nat, c: ChildPc)
    requires i < |cs|
    ensures Sum(Ranks(cs[i := c])) + Rank(cs[i]) == Sum(Ranks(cs)) + Rank(c)
  {
    assert Ranks(cs[i := c]) == Ranks(cs)[i := Rank(c)];
    SumUpdate(Ranks(cs), i, Rank(c));
  }

  lemma BacklogUpdate(conns: seq<Conn>, i: nat, c: Conn)
    requires i < |conns|
    ensures Sum(Backlog(conns[i := c])) + |conns[i].inb| == Sum(Backlog(conns)) + |c.inb|
  {
    assert Backlog(conns[i := c]) == Backlog(conns)[i := |c.inb|];
    SumUpdate(Backlog(conns), i, |c.inb|);
  }

  /** While the parent waits each step of a child uses up work, unless it ends the wait. */
  lemma ChildWorks(s: State, i: nat, garbage: seq<byte>)
    requires i < |s.children| && |garbage| == 4 && ChildEnabled(s, i)
    requires ParentBlocked(s) && ParentBlocked(ApplyChild(s, i, garbage))
    ensures Work(ApplyChild(s, i, garbage)) < Work(s)
  {
    hide FromBe32, Be32, Ranks, Backlog;
    var t := ApplyChild(s, i, garbage);
    RanksUpdate(s.children, i, t.children[i]);
    assert t.children == s.children[i := t.children[i]];
    if Busy(s.children[i]) && s.children[i].conn < |s.conns| {
      var c := s.children[i].conn;
      BacklogUpdate(s.conns, c, t.conns[c]);
      assert t.conns == s.conns[c := t.conns[c]];
    }
  }

  /** Every state of the run, the last one included, has the parent blocked. */
  predicate BlockedAlong(cfg: Config, s: State, steps: seq<Step>)
    decreases |steps|
  {
    && ParentBlocked(s)
    && (steps != [] ==> Enabled(cfg, s, steps[0]) && BlockedAlong(cfg, Apply(cfg, s, steps[0]), steps[1..]))
  }

  function ChildSteps(steps: seq<Step>): nat {
    if steps == [] then 0 else Bit(steps[0].Child?) + ChildSteps(steps[1..])
  }

  /** Bytes that clients send during the run. */
  function Delivered(steps: seq<Step>): nat {
    if steps == [] then 0 else (if steps[0].Deliver? then |steps[0].bytes| else 0) + Delivered(steps[1..])
  }

  lemma StepWorks(cfg: Config, s: State, step: Step)
    requires Enabled(cfg, s, step) && ParentBlocked(s) && ParentBlocked(Apply(cfg, s, step))
    ensures Work(Apply(cfg, s, step)) + Bit(step.Child?) <= Work(s) + Delivered([step])
  {
    match step
    case Child(i, garbage) => ChildWorks(s, i, garbage);
    case Deliver(c, bytes) =>
      assert [step][1..] == [];
      BacklogUpdate(s.conns, c, s.conns[c].(inb := s.conns[c].inb + bytes));
    case HangUp(c) => BacklogUpdate(s.conns, c, s.conns[c].(eof := true));
    case Collect(c, count) => BacklogUpdate(s.conns, c, s.conns[c].(outb := s.conns[c].outb[count..]));
    case _ =>
  }

  /** However the children are scheduled, and whatever clients do, the wait lasts no longer than there is work. */
  lemma {:induction false} BoundedWait(cfg: Config, s: State, steps: seq<Step>)
    requires BlockedAlong(cfg, s, steps)
    ensures ChildSteps(steps) <= Work(s) + Delivered(steps)
    decreases |steps|
  {
    hide Work;
    if steps != [] {
      var t := Apply(cfg, s, steps[0]);
      assert ParentBlocked(t);
      StepWorks(cfg, s, steps[0]);
      assert [steps[0]][1..] == [];
      BoundedWait(cfg, t, steps[1..]);
    }
  }

  function After(cfg: Config, s: State, steps: seq<Step>): State
    requires BlockedAlong(cfg, s, steps)
    decreases |steps|
  {
    if steps == [] then s else After(cfg, Apply(cfg, s, steps[0]), steps[1..])
  }

  lemma {:induction false} AfterLeads(cfg: Config, s: State, steps: seq<Step>)
    requires BlockedAlong(cfg, s, steps)
    ensures Leads(cfg, s, steps, After(cfg, s, steps)) && ParentBlocked(After(cfg, s, steps))
    decreases |steps|
  {
    if steps != [] {
      AfterLeads(cfg, Apply(cfg, s, steps[0]), steps[1..]);
    }
  }

  /**
   With at most one slot more than children, as configured: left to the children alone, the parent's wait ends.
   As long as it lasts some child can step, so a schedule never gets caught, and it cannot last longer than
   Work(s) steps.
   */
  lemma EveryScheduleUnblocks(cfg: Config, s: State, steps: seq<Step>)
    requires Reachable(cfg, s) && cfg.capacity <= cfg.workers + 1
    requires BlockedAlong(cfg, s, steps)
    requires forall k :: 0 <= k < |steps| ==> steps[k].Child?
    ensures |steps| <= Work(s)
    ensures exists i :: Enabled(cfg, After(cfg, s, steps), Child(i, JUNK))
  {
    BoundedWait(cfg, s, steps);
    OnlyChildren(steps);
    var t := After(cfg, s, steps);
    AfterLeads(cfg, s, steps);
    ReachableOn(cfg, s, steps, t);
    HostageBound(cfg);
    assert !Hostage(t);
    var i: nat :| i < |t.children| && ChildEnabled(t, i);
    assert Enabled(cfg, t, Child(i, JUNK));
  }

  lemma {:induction false} OnlyChildren(steps: seq<Step>)
    requires forall k :: 0 <= k < |steps| ==> steps[k].Child?
    ensures ChildSteps(steps) == |steps| && Delivered(steps) == 0
  {
    if steps != [] {
      OnlyChildren(steps[1..]);
    }
  }
}
