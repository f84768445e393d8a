/**
 The parent of the process server in the form the program gives it: one array of pollfds with the listen
 socket first, the completion pipe second and the clients after them, updated in place by four routines.
 Each routine is proved against the table functions of Slots, which are also the parent's steps in Protocol.
 */
module ProcessParent {
  import opened Counting
  import opened Slots

  /** What read returns on the pipe: a whole number, or an error. */
  datatype PipeRead = Number(fd: int) | PipeFailed

  /** What becomes of one dispatch: sem_wait on domain WRITE may be interrupted or fail, and so may sendmsg fail. */
  datatype Dispatch = Delivered | Interrupted | WaitFailed | SendFailed

  predicate Fails(how: Dispatch) {
    how.WaitFailed? || how.SendFailed?
  }

  /** The first slot from k on whose dispatch fails, or one past the last. */
  function FailsAt(slots: seq<PollFd>, hows: seq<Dispatch>, k: nat): (n: nat)
    requires |hows| == |slots| && k <= |slots|
    ensures k <= n <= |slots|
    ensures forall i :: k <= i < n ==> !(slots[i].revents == Revents(true, false, false) && Fails(hows[i]))
    ensures n < |slots| ==> slots[n].revents == Revents(true, false, false) && Fails(hows[n])
    decreases |slots| - k
  {
    if k == |slots| || (JustIn(slots[k].revents) && Fails(hows[k])) then k else FailsAt(slots, hows, k + 1)
  }

  /** The numbers that have reached the socket when the sweep has done its first k slots. */
  function DeliveredBy(slots: seq<PollFd>, hows: seq<Dispatch>, k: nat): seq<int>
    requires k <= |slots| == |hows|
  {
    if k == 0 then []
    else DeliveredBy(slots, hows, k - 1)
         + (if JustIn(slots[k - 1].revents) && hows[k - 1].Delivered? then [slots[k - 1].fd] else [])
  }

  lemma {:induction false} InDeliveredBy(slots: seq<PollFd>, hows: seq<Dispatch>, k: nat, f: int)
    requires k <= |slots| == |hows|
    ensures f in DeliveredBy(slots, hows, k) <==>
              exists i :: 0 <= i < k && JustIn(slots[i].revents) && hows[i].Delivered? && slots[i].fd == f
  {
    if k > 0 {
      InDeliveredBy(slots, hows, k - 1, f);
    }
  }

  /** As SweepTreats, for dispatches that may be interrupted; and the addresses go with the entries freed. */
  lemma HandlingTreats(slots: seq<PollFd>, hows: seq<Dispatch>, addrs: seq<Addr>, k: nat, i: nat)
    requires Distinct(slots) && Asked(slots, 0) && i < |slots| == |hows| == |addrs| && k <= |slots|
    ensures var y, sent := SweptTo(slots, k)[i], slots[i].fd in DeliveredBy(slots, hows, k);
            var closed := slots[i].fd in ClosedBy(slots, k);
            if i < k then Treated(slots[i], y, true, sent, closed, hows[i].Delivered?)
            else y == slots[i] && !sent && !closed
    ensures AddrsTo(addrs, slots, k)[i]
         == if i < k && (slots[i].revents.hup || slots[i].revents.err) then NO_ADDR else addrs[i]
  {
    SweepTreats(slots, k, i);
    InDeliveredBy(slots, hows, k, slots[i].fd);
    forall j | 0 <= j < k && j != i && slots[j].revents != QUIET ensures slots[i].fd != slots[j].fd {
      ReportedApart(slots, i, j);
    }
  }

  /** Without interruptions that is everything the sweep dispatches. */
  lemma {:induction false} AllDelivered(slots: seq<PollFd>, hows: seq<Dispatch>, k: nat)
    requires k <= |slots| == |hows|
    requires forall i :: 0 <= i < k && JustIn(slots[i].revents) ==> hows[i].Delivered?
    ensures DeliveredBy(slots, hows, k) == SentBy(slots, k)
  {
    if k > 0 {
      AllDelivered(slots, hows, k - 1);
    }
  }

  lemma DeliverOne(slots: seq<PollFd>, hows: seq<Dispatch>, i: nat)
    requires i < |slots| == |hows|
    ensures DeliveredBy(slots, hows, i + 1)
         == DeliveredBy(slots, hows, i) + (if JustIn(slots[i].revents) && hows[i].Delivered? then [slots[i].fd] else [])
    ensures FailsAt(slots, hows, i)
         == if JustIn(slots[i].revents) && Fails(hows[i]) then i else FailsAt(slots, hows, i + 1)
  {
  }

  /** The peers' addresses by then. */
  function AddrsTo(addrs: seq<Addr>, slots: seq<PollFd>, k: nat): (r: seq<Addr>)
    requires |addrs| == |slots|
    ensures |r| == |addrs|
  {
    seq(|addrs|, i requires 0 <= i < |addrs| => if i < k && Gone(slots[i].revents) then NO_ADDR else addrs[i])
  }

  lemma AddrsOne(addrs: seq<Addr>, slots: seq<PollFd>, i: nat)
    requires i < |addrs| == |slots|
    ensures AddrsTo(addrs, slots, i + 1)
         == if Gone(slots[i].revents) then AddrsTo(addrs, slots, i)[i := NO_ADDR] else AddrsTo(addrs, slots, i)
  {
  }

  lemma SweepStart(slots: seq<PollFd>, hows: seq<Dispatch>, addrs: seq<Addr>)
    requires |slots| == |hows| == |addrs|
    ensures SweptTo(slots, 0) == slots && DeliveredBy(slots, hows, 0) == [] && ClosedBy(slots, 0) == {}
    ensures AddrsTo(addrs, slots, 0) == addrs
  {
  }

  lemma AskedAt(slots: seq<PollFd>, i: nat)
    requires Asked(slots, 0) && i < |slots|
    ensures slots[i].revents != QUIET ==> slots[i].fd > 0
  {
  }

  /** What a sweep over `before` that has done `done` entries leaves, by the flags that poll set. */
  ghost predicate AllTreated(before: seq<PollFd>, after: seq<PollFd>, hows: seq<Dispatch>, done: nat,
                             sent: seq<int>, open: set<int>, open': set<int>)
    requires |before| == |after| == |hows|
  {
    forall i :: 0 <= i < |before| ==>
      var delivered, closed := before[i].fd in sent, before[i].fd in open - open';
      if i < done then Treated(before[i], after[i], true, delivered, closed, hows[i].Delivered?)
      else after[i] == before[i] && !delivered && !closed
  }

  lemma HandlingTreatsAll(slots: seq<PollFd>, hows: seq<Dispatch>, num: int, listening: bool, open: set<int>, done: nat)
    requires Consistent(slots, num, listening, open) && Asked(slots, 0) && done <= |slots| == |hows|
    ensures AllTreated(slots, SweptTo(slots, done), hows, done,
                       DeliveredBy(slots, hows, done), open, open - ClosedBy(slots, done))
  {
    hide SweptTo, DeliveredBy, ClosedBy, AddrsTo, Treated;
    var addrs := seq(|slots|, _ => NO_ADDR);
    forall i | 0 <= i < |slots|
      ensures var delivered := slots[i].fd in DeliveredBy(slots, hows, done);
              var closed := slots[i].fd in open - (open - ClosedBy(slots, done));
              if i < done then Treated(slots[i], SweptTo(slots, done)[i], true, delivered, closed, hows[i].Delivered?)
              else SweptTo(slots, done)[i] == slots[i] && !delivered && !closed
    {
      HandlingTreats(slots, hows, addrs, done, i);
      ClosedWasOpen(slots, num, listening, open, done, i);
    }
  }

  lemma ClosedWasOpen(slots: seq<PollFd>, num: int, listening: bool, open: set<int>, k: nat, i: nat)
    requires Consistent(slots, num, listening, open) && Asked(slots, 0) && k <= |slots| && i < |slots|
    ensures slots[i].fd in open - (open - ClosedBy(slots, k)) <==> slots[i].fd in ClosedBy(slots, k)
  {
    if slots[i].fd in ClosedBy(slots, k) {
      var j :| 0 <= j < k && Gone(slots[j].revents) && slots[j].fd == slots[i].fd;
      assert Abs(slots[j].fd) in LiveFds(slots);
    }
  }

  /** The parent's table and its open descriptors. */
  datatype View = View(table: seq<PollFd>, open: set<int>)

  /** What the kernel answers in one iteration. */
  datatype Iteration = Iteration(listen: Revents, pipe: Revents, clients: seq<Revents>,
                                 accepted: Accepted, note: PipeRead, hows: seq<Dispatch>)

  /** Nothing is reported that was not asked for, and accept hands out a number that is not open. */
  predicate Admissible(v: View, it: Iteration) {
    && |it.clients| == |it.hows| == |v.table|
    && (it.listen.pollin ==> NumLive(v.table) < |v.table|)
    && (forall i :: 0 <= i < |v.table| ==> Parent.Reportable(v.table[i], it.clients[i]))
    && (it.accepted.Accepted? ==> it.accepted.fd > 0 && it.accepted.fd !in v.open)
  }

  predicate Breaks(v: View, it: Iteration)
    requires Admissible(v, it)
  {
    if it.listen == Revents(true, false, false) then it.accepted.AcceptFailed?
    else if it.pipe == Revents(true, false, false) then it.note.PipeFailed?
    else FailsAt(Marked(v.table, it.clients), it.hows, 0) < |v.table|
  }

  function Next(v: View, it: Iteration): View
    requires Admissible(v, it) && !Breaks(v, it)
  {
    var marked := Marked(v.table, it.clients);
    if it.listen == Revents(true, false, false) then
      if FreeIndex(marked) < |marked| then View(Occupied(marked, it.accepted.fd), v.open + {it.accepted.fd}) else v
    else if it.pipe == Revents(true, false, false) then View(Reenabled(marked, it.note.fd), v.open)
    else View(SweptTo(marked, |marked|), v.open - ClosedBy(marked, |marked|))
  }

  /** The kernel's answers are admissible for as long as the loop runs. */
  predicate ScriptOk(v: View, script: seq<Iteration>)
    decreases |script|
  {
    script != [] ==>
      && Admissible(v, script[0])
      && (!Breaks(v, script[0]) ==> ScriptOk(Next(v, script[0]), script[1..]))
  }

  /** No iteration fails. */
  predicate Sustained(v: View, script: seq<Iteration>)
    requires ScriptOk(v, script)
    decreases |script|
  {
    script != [] ==> !Breaks(v, script[0]) && Sustained(Next(v, script[0]), script[1..])
  }

  function AfterAll(v: View, script: seq<Iteration>): View
    requires ScriptOk(v, script)
    decreases |script|
  {
    if script == [] || Breaks(v, script[0]) then v else AfterAll(Next(v, script[0]), script[1..])
  }

  /** What a sweep changes, as values. */
  datatype Ledger = Ledger(table: seq<PollFd>, addrs: seq<Addr>, sent: seq<int>, open: set<int>,
                           taken: int, posted: int)

  /** How things stand when the sweep that found `b` has done k slots. */
  ghost predicate Done(b: Ledger, hows: seq<Dispatch>, k: nat, now: Ledger) {
    && |hows| == |b.table| == |b.addrs| && k <= |b.table|
    && now.table == SweptTo(b.table, k)
    && now.addrs == AddrsTo(b.addrs, b.table, k)
    && now.sent == b.sent + DeliveredBy(b.table, hows, k)
    && now.posted == b.posted + |DeliveredBy(b.table, hows, k)|
    && now.taken - b.taken == now.posted - b.posted
    && now.open == b.open - ClosedBy(b.table, k)
  }

  lemma DoneNone(b: Ledger, hows: seq<Dispatch>)
    requires |hows| == |b.table| == |b.addrs|
    ensures Done(b, hows, 0, b)
  {
    SweepStart(b.table, hows, b.addrs);
    assert b.sent + [] == b.sent;
  }

  lemma DoneAt(b: Ledger, hows: seq<Dispatch>, k: nat, now: Ledger)
    requires Done(b, hows, k, now) && k < |b.table|
    ensures |now.table| == |b.table| == |now.addrs| && now.table[k] == b.table[k]
  {
    SweepOne(b.table, k);
  }

  /** One more turn, as VisitEntry leaves it. */
  lemma DoneOne(b: Ledger, hows: seq<Dispatch>, k: nat, now: Ledger, after: Ledger)
    requires Done(b, hows, k, now) && k < |b.table| && |now.table| == |now.addrs| == |b.table|
    requires var x, how := b.table[k], hows[k];
             && !(JustIn(x.revents) && Fails(how))
             && after.table == now.table[k := Swept(x)]
             && after.sent == (if JustIn(x.revents) && how.Delivered? then now.sent + [x.fd] else now.sent)
             && after.posted == now.posted + Bit(JustIn(x.revents) && how.Delivered?)
             && after.taken == now.taken + Bit(JustIn(x.revents) && (how.Delivered? || how.SendFailed?))
             && after.open == (if Gone(x.revents) then now.open - {x.fd} else now.open)
             && after.addrs == (if Gone(x.revents) then now.addrs[k := NO_ADDR] else now.addrs)
    ensures Done(b, hows, k + 1, after)
  {
    hide ClosedBy, SweptTo, AddrsTo, DeliveredBy, Swept;
    SweepOne(b.table, k);
    AddrsOne(b.addrs, b.table, k);
    DeliverOne(b.table, hows, k);
    assert ClosedBy(b.table, k) + {} == ClosedBy(b.table, k);
    assert b.sent + DeliveredBy(b.table, hows, k) + [] == b.sent + DeliveredBy(b.table, hows, k);
  }

  lemma DoneMeans(b: Ledger, hows: seq<Dispatch>, k: nat, now: Ledger)
    requires Done(b, hows, k, now)
    ensures |hows| == |b.table| == |b.addrs| && k <= |b.table|
    ensures now.table == SweptTo(b.table, k) && now.addrs == AddrsTo(b.addrs, b.table, k)
    ensures now.sent == b.sent + DeliveredBy(b.table, hows, k)
    ensures now.sent[|b.sent|..] == DeliveredBy(b.table, hows, k)
    ensures now.posted == b.posted + |DeliveredBy(b.table, hows, k)|
    ensures now.taken - b.taken == now.posted - b.posted
    ensures now.open == b.open - ClosedBy(b.table, k)
  {
  }

  class Parent {
    const capacity: nat
    const listenFd: int
    const pipeFd: int
    const pollfds: array<PollFd>
    const clientAddrs: array<Addr>
    var numConnections: nat
    var pipeSem: nat          // the completion pipe's semaphore, posted here and taken by children
    var writeTaken: nat       // how often this process has taken domain WRITE
    var readPosted: nat       // how often it has posted domain READ
    var sent: seq<int>        // numbers sent over the domain socket, oldest first
    var open: set<int>        // client descriptors open in this process

    ghost function Table(): (r: seq<PollFd>)
      requires pollfds.Length >= 2
      reads this, pollfds
    {
      pollfds[2..]
    }

    ghost predicate Valid()
      reads this, pollfds, clientAddrs
    {
      && capacity > 0
      && pollfds.Length == capacity + 2
      && clientAddrs.Length == capacity
      && pollfds[0].fd == listenFd
      && pollfds[1].fd == pipeFd && pollfds[1].events
      && Consistent(Table(), numConnections, pollfds[0].events, open)
    }

    /** As p_setup_parent leaves it: nobody connected, listening on. */
    constructor (capacity: nat, listenFd: int, pipeFd: int)
      requires capacity > 0
      ensures Valid() && fresh(pollfds) && fresh(clientAddrs)
      ensures this.capacity == capacity && this.listenFd == listenFd && this.pipeFd == pipeFd
      ensures Table() == seq(capacity, _ => EMPTY)
      ensures pollfds[0] == PollFd(listenFd, true, QUIET) && pollfds[1] == PollFd(pipeFd, true, QUIET)
      ensures numConnections == 0 && open == {} && sent == [] && pipeSem == 1 && writeTaken == readPosted == 0
    {
      this.capacity, this.listenFd, this.pipeFd := capacity, listenFd, pipeFd;
      pollfds := new PollFd[capacity + 2](_ => EMPTY);
      clientAddrs := new Addr[capacity](_ => NO_ADDR);
      numConnections, pipeSem, sent, open := 0, 1, [], {};
      writeTaken, readPosted := 0, 0;
      new;
      pollfds[0] := PollFd(listenFd, true, QUIET);
      pollfds[1] := PollFd(pipeFd, true, QUIET);
      EmptyConsistent(capacity);
      assert Table() == seq(capacity, _ => EMPTY);
    }

    /** The first free entry, or entry 2 when there is none. */
    method GetPollfdIndex() returns (index: nat)
      requires pollfds.Length >= 2
      ensures index == 2 + FreeIndex(Table())
    {
      index := 2;
      var p := 2;
      while p < pollfds.Length
        invariant 2 <= p <= pollfds.Length && index == 2
        invariant FreeIndex(Table()) == FreeFrom(Table(), p - 2)
      {
        if pollfds[p].fd == 0 {
          index := p;
          break;
        }
        p := p + 1;
      }
    }

    method AcceptNewConnection(got: Accepted) returns (r: int)
      requires Valid() && pollfds[0].events
      requires got.Accepted? ==> got.fd > 0 && got.fd !in open
      modifies `numConnections, `open, pollfds, clientAddrs
      ensures Valid()
      ensures got.AcceptFailed? ==>
                r == -1 && pollfds[..] == old(pollfds[..]) && clientAddrs[..] == old(clientAddrs[..])
                && numConnections == old(numConnections) && open == old(open)
      ensures got.Accepted? ==>
                && r == 0
                && FreeIndex(old(Table())) < capacity && old(Table())[FreeIndex(old(Table()))].fd == 0
                && Table() == Occupied(old(Table()), got.fd)
                && clientAddrs[..] == old(clientAddrs[..])[FreeIndex(old(Table())) := got.addr]
                && numConnections == old(numConnections) + 1
                && open == old(open) + {got.fd}
                && pollfds[0] == old(pollfds[0]).(events := numConnections < capacity)
                && pollfds[1] == old(pollfds[1])
    {
      var i := GetPollfdIndex();
      if got.AcceptFailed? {
        return -1;
      }
      hide Consistent;
      ghost var was := Table();
      AcceptKeeps(was, numConnections, open, got.fd);
      clientAddrs[i - 2] := got.addr;
      pollfds[i] := pollfds[i].(fd := got.fd);
      pollfds[i] := pollfds[i].(events := true);
      numConnections := numConnections + 1;
      open := open + {got.fd};
      if numConnections >= capacity {
        pollfds[0] := pollfds[0].(events := false);
      }
      assert Table() == Occupied(was, got.fd);
      r := 0;
    }

    /** Read a number from the pipe, post its semaphore whatever came, and flip every entry that holds its negation. */
    method ReadPipeReenableFd(got: PipeRead) returns (r: int)
      requires Valid()
      modifies `pipeSem, pollfds
      ensures Valid()
      ensures pipeSem == old(pipeSem) + 1
      ensures pollfds[0] == old(pollfds[0]) && pollfds[1] == old(pollfds[1])
      ensures got.PipeFailed? ==> r == -1 && Table() == old(Table())
      ensures got.Number? ==> r == 0 && Table() == Reenabled(old(Table()), got.fd)
    {
      pipeSem := pipeSem + 1;
      if got.PipeFailed? {
        return -1;
      }
      hide Consistent;
      ghost var was := Table();
      var p := 2;
      while p < pollfds.Length
        invariant 2 <= p <= pollfds.Length
        invariant pollfds[0] == old(pollfds[0]) && pollfds[1] == old(pollfds[1])
        invariant forall i :: 0 <= i < p - 2 ==> Table()[i] == Reenabled(was, got.fd)[i]
        invariant forall i :: p - 2 <= i < |was| ==> Table()[i] == was[i]
        modifies pollfds
      {
        if pollfds[p].fd == got.fd * -1 {
          pollfds[p] := pollfds[p].(fd := pollfds[p].fd * -1);
        }
        p := p + 1;
      }
      assert Table() == Reenabled(was, got.fd);
      SignsKeep(was, Table(), numConnections, pollfds[0].events, open);
      r := 0;
    }

    /** Close the connection of entry p and free the entry. */
    method RemoveConnection(p: nat)
      requires Valid() && 2 <= p < pollfds.Length && pollfds[p].fd > 0
      modifies `numConnections, `open, pollfds, clientAddrs
      ensures Valid()
      ensures Table() == Cleared(old(Table()), p - 2)
      ensures clientAddrs[..] == old(clientAddrs[..])[p - 2 := NO_ADDR]
      ensures numConnections == old(numConnections) - 1
      ensures open == old(open) - {old(pollfds[p].fd)}
      ensures pollfds[0] == old(pollfds[0]).(events := true) && pollfds[1] == old(pollfds[1])
    {
      hide Consistent;
      ghost var was := Table();
      RemoveKeeps(was, numConnections, pollfds[0].events, open, p - 2);
      open := open - {pollfds[p].fd};
      pollfds[p] := EMPTY;
      clientAddrs[p - 2] := NO_ADDR;
      numConnections := numConnections - 1;
      if !pollfds[0].events && numConnections < capacity {
        pollfds[0] := pollfds[0].(events := true);
      }
      assert Table() == Cleared(was, p - 2);
    }

    /**
     Send entry p's number and description to the children. If sendmsg fails the token of domain WRITE is gone;
     an interrupted wait counts as success, though nothing is sent.
     */
    method SendToChild(p: nat, how: Dispatch) returns (r: int)
      requires p < pollfds.Length
      modifies `sent, `writeTaken, `readPosted
      ensures r == if Fails(how) then -1 else 0
      ensures writeTaken == old(writeTaken) + Bit(how.Delivered? || how.SendFailed?)
      ensures readPosted == old(readPosted) + Bit(how.Delivered?)
      ensures sent == if how.Delivered? then old(sent) + [pollfds[p].fd] else old(sent)
    {
      if how.Interrupted? {
        return 0;
      }
      if how.WaitFailed? {
        return -1;
      }
      writeTaken := writeTaken + 1;
      if how.SendFailed? {
        return -1;
      }
      sent := sent + [pollfds[p].fd];
      readPosted := readPosted + 1;
      r := 0;
    }

    /** One turn of the sweep, at entry p: dispatch and disable, remove, or just reset revents. */
    method VisitEntry(p: nat, how: Dispatch) returns (r: int)
      requires Valid() && 2 <= p < pollfds.Length
      requires pollfds[p].revents != QUIET ==> pollfds[p].fd > 0
      modifies `numConnections, `open, `sent, `writeTaken, `readPosted, pollfds, clientAddrs
      ensures Valid()
      ensures pollfds[1] == old(pollfds[1]) && pollfds[0].revents == old(pollfds[0].revents)
      ensures var x := old(pollfds[p]);
              && r == (if Fails(how) && JustIn(x.revents) then -1 else 0)
              && Table() == (if r == -1 then old(Table()) else old(Table())[p - 2 := Swept(x)])
              && sent == (if JustIn(x.revents) && how.Delivered? then old(sent) + [x.fd] else old(sent))
              && readPosted == old(readPosted) + Bit(JustIn(x.revents) && how.Delivered?)
              && writeTaken == old(writeTaken) + Bit(JustIn(x.revents) && (how.Delivered? || how.SendFailed?))
              && open == (if Gone(x.revents) then old(open) - {x.fd} else old(open))
              && clientAddrs[..]
                 == if Gone(x.revents) then old(clientAddrs[..])[p - 2 := NO_ADDR] else old(clientAddrs[..])
    {
      hide Consistent;
      ghost var was := Table();
      assert was[p - 2] == pollfds[p];
      if !Gone(pollfds[p].revents) {
        SignKeeps(was, numConnections, pollfds[0].events, open, p - 2, Swept(pollfds[p]));
      }
      if JustIn(pollfds[p].revents) {
        r := SendToChild(p, how);
        if r == -1 {
          return;
        }
        pollfds[p] := pollfds[p].(fd := pollfds[p].fd * -1);
      } else if pollfds[p].revents.hup || pollfds[p].revents.err {
        RemoveConnection(p);
      }
      pollfds[p] := pollfds[p].(revents := QUIET);
      assert Table() == was[p - 2 := Swept(was[p - 2])];
      r := 0;
    }

    /**
     The client sweep: dispatch and disable what is readable, remove what has hung up, to the end or to the
     first dispatch that fails. `hows` is what becomes of a dispatch at each slot.
     */
    method HandleSocketAction(hows: seq<Dispatch>) returns (r: int)
      requires Valid() && |hows| == capacity
      requires Asked(Table(), 0)
      modifies `numConnections, `open, `sent, `writeTaken, `readPosted, pollfds, clientAddrs
      ensures Valid()
      ensures pollfds[1] == old(pollfds[1]) && pollfds[0].revents == old(pollfds[0].revents)
      ensures var done := FailsAt(old(Table()), hows, 0);
              && r == (if done < capacity then -1 else 0)
              && Table() == SweptTo(old(Table()), done)
              && clientAddrs[..] == AddrsTo(old(clientAddrs[..]), old(Table()), done)
              && sent == old(sent) + DeliveredBy(old(Table()), hows, done)
              && readPosted == old(readPosted) + |DeliveredBy(old(Table()), hows, done)|
              && writeTaken - old(writeTaken)
                 == readPosted - old(readPosted) + Bit(done < capacity && hows[done].SendFailed?)
              && open == old(open) - ClosedBy(old(Table()), done)
              && AllTreated(old(Table()), Table(), hows, done, sent[|old(sent)|..], old(open), open)
    {
      hide Consistent, ClosedBy, SweptTo, AddrsTo, DeliveredBy, FailsAt, Swept, Asked, AllTreated, Done;
      ghost var before := Ledger(Table(), clientAddrs[..], sent, open, writeTaken, readPosted);
      ghost var done := FailsAt(before.table, hows, 0);
      HandlingTreatsAll(before.table, hows, numConnections, pollfds[0].events, open, done);
      DoneNone(before, hows);
      var p := 2;
      while p < pollfds.Length
        invariant 2 <= p <= pollfds.Length
        invariant Valid() && pollfds[1] == old(pollfds[1]) && pollfds[0].revents == old(pollfds[0].revents)
        invariant Done(before, hows, p - 2, Ledger(Table(), clientAddrs[..], sent, open, writeTaken, readPosted))
        invariant done == FailsAt(before.table, hows, p - 2)
      {
        ghost var here := Ledger(Table(), clientAddrs[..], sent, open, writeTaken, readPosted);
        DoneAt(before, hows, p - 2, here);
        DeliverOne(before.table, hows, p - 2);
        AskedAt(before.table, p - 2);
        assert pollfds[p] == Table()[p - 2];
        r := VisitEntry(p, hows[p - 2]);
        if r == -1 {
          DoneMeans(before, hows, p - 2, here);
          return;
        }
        DoneOne(before, hows, p - 2, here, Ledger(Table(), clientAddrs[..], sent, open, writeTaken, readPosted));
        p := p + 1;
      }
      DoneMeans(before, hows, capacity, Ledger(Table(), clientAddrs[..], sent, open, writeTaken, readPosted));
      r := 0;
    }

    /** What poll reports for a slot: nothing for a free or disabled entry. */
    static predicate Reportable(x: PollFd, r: Revents) {
      x.fd <= 0 ==> r == QUIET
    }

    /**
     One iteration of the loop: poll fills in revents, then the listen socket has priority, then the pipe,
     and only then the clients are swept.
     */
    method PollIteration(listen: Revents, pipe: Revents, clients: seq<Revents>,
                         accepted: Accepted, note: PipeRead, hows: seq<Dispatch>) returns (r: int)
      requires Valid() && |clients| == |hows| == capacity
      requires listen.pollin ==> pollfds[0].events
      requires forall i :: 0 <= i < capacity ==> Reportable(Table()[i], clients[i])
      requires accepted.Accepted? ==> accepted.fd > 0 && accepted.fd !in open
      modifies `numConnections, `open, `sent, `writeTaken, `readPosted, `pipeSem, pollfds, clientAddrs
      ensures Valid()
      ensures pollfds[0].revents == listen && pollfds[1] == old(pollfds[1]).(revents := pipe)
      ensures var marked := Marked(old(Table()), clients);
              if listen == Revents(true, false, false) then
                && Unsent(old(sent), old(writeTaken), old(readPosted)) && pipeSem == old(pipeSem)
                && (accepted.Accepted? ==>
                      && r == 0 && FreeIndex(marked) < capacity && marked[FreeIndex(marked)].fd == 0
                      && Table() == Occupied(marked, accepted.fd) && open == old(open) + {accepted.fd}
                      && clientAddrs[..] == old(clientAddrs[..])[FreeIndex(marked) := accepted.addr])
                && (accepted.AcceptFailed? ==>
                      r == -1 && Table() == marked && open == old(open) && clientAddrs[..] == old(clientAddrs[..]))
              else if pipe == Revents(true, false, false) then
                && Unsent(old(sent), old(writeTaken), old(readPosted)) && pipeSem == old(pipeSem) + 1
                && open == old(open) && clientAddrs[..] == old(clientAddrs[..])
                && (note.Number? ==> r == 0 && Table() == Reenabled(marked, note.fd))
                && (note.PipeFailed? ==> r == -1 && Table() == marked)
              else
                && pipeSem == old(pipeSem)
                && var done := FailsAt(marked, hows, 0);
                && r == (if done < capacity then -1 else 0)
                && Table() == SweptTo(marked, done)
                && clientAddrs[..] == AddrsTo(old(clientAddrs[..]), marked, done)
                && sent == old(sent) + DeliveredBy(marked, hows, done)
                && readPosted == old(readPosted) + |DeliveredBy(marked, hows, done)|
                && writeTaken - old(writeTaken)
                   == readPosted - old(readPosted) + Bit(done < capacity && hows[done].SendFailed?)
                && open == old(open) - ClosedBy(marked, done)
                && AllTreated(marked, Table(), hows, done, sent[|old(sent)|..], old(open), open)
    {
      hide Consistent, DeliveredBy, FailsAt, SweptTo, ClosedBy, AddrsTo, AllTreated;
      ghost var was, addrs := Table(), clientAddrs[..];
      forall i | 0 <= i < capacity {
        pollfds[i + 2] := pollfds[i + 2].(revents := clients[i]);
      }
      pollfds[0] := pollfds[0].(revents := listen);
      pollfds[1] := pollfds[1].(revents := pipe);
      assert Table() == Marked(was, clients) && clientAddrs[..] == addrs;
      SignsKeep(was, Table(), numConnections, pollfds[0].events, open);
      if JustIn(pollfds[0].revents) {
        r := AcceptNewConnection(accepted);
        assert accepted.AcceptFailed? ==> Table() == Marked(was, clients);
      } else if JustIn(pollfds[1].revents) {
        r := ReadPipeReenableFd(note);
        assert clientAddrs[..] == addrs;
      } else {
        assert forall i :: 0 <= i < capacity ==> Reportable(was[i], clients[i]);
        r := HandleSocketAction(hows);
      }
    }

    function CurrentView(): View
      requires pollfds.Length >= 2
      reads this, pollfds
    {
      View(pollfds[2..], open)
    }

    /**
     The parent's loop over a script of iterations, each answered by the kernel: up to the first iteration that
     fails, table and open descriptors go through the states that `Next` gives; -1 exactly if one fails. All
     along, `Valid` has the listen socket and the pipe in their entries and the pipe asking for input.
     */
    method RunPollLoop(script: seq<Iteration>) returns (r: int)
      requires Valid() && ScriptOk(CurrentView(), script)
      modifies `numConnections, `open, `sent, `writeTaken, `readPosted, `pipeSem, pollfds, clientAddrs
      ensures Valid()
      ensures r == if Sustained(old(CurrentView()), script) then 0 else -1
      ensures r == 0 ==> CurrentView() == AfterAll(old(CurrentView()), script)
    {
      hide Consistent, Next, Breaks, Admissible;
      ghost var view0 := CurrentView();
      var n := 0;
      assert script[0..] == script;
      while n < |script|
        invariant 0 <= n <= |script| && Valid()
        invariant ScriptOk(CurrentView(), script[n..])
        invariant Sustained(view0, script) == Sustained(CurrentView(), script[n..])
        invariant AfterAll(view0, script) == AfterAll(CurrentView(), script[n..])
      {
        assert script[n..][0] == script[n] && script[n..][1..] == script[n + 1..];
        r := Iterate(script[n]);
        if r == -1 {
          return;
        }
        n := n + 1;
      }
      r := 0;
    }

    method Iterate(it: Iteration) returns (r: int)
      requires Valid() && Admissible(CurrentView(), it)
      modifies `numConnections, `open, `sent, `writeTaken, `readPosted, `pipeSem, pollfds, clientAddrs
      ensures Valid()
      ensures r == if Breaks(old(CurrentView()), it) then -1 else 0
      ensures r == 0 ==> CurrentView() == Next(old(CurrentView()), it)
    {
      hide Consistent, SweptTo, ClosedBy, DeliveredBy, FailsAt, AllTreated, AddrsTo, NumLive;
      ListeningMeans();
      r := PollIteration(it.listen, it.pipe, it.clients, it.accepted, it.note, it.hows);
    }

    lemma ListeningMeans()
      requires Valid()
      ensures pollfds[0].events <==> NumLive(Table()) < |Table()|
    {
    }

    /** Nothing has been sent to the children, and their semaphores have not been touched. */
    predicate Unsent(sent0: seq<int>, writeTaken0: nat, readPosted0: nat)
      reads this
    {
      sent == sent0 && writeTaken == writeTaken0 && readPosted == readPosted0
    }
  }

  lemma EmptyConsistent(capacity: nat)
    requires capacity > 0
    ensures Consistent(seq(capacity, _ => EMPTY), 0, true, {})
  {
    CountNone(LiveMarks(seq(capacity, _ => EMPTY)));
  }
}
