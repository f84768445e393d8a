/** Every step of parent, child or client keeps the invariant, so every reachable state has it. */
module Steps {
  import opened Bytes
  import opened Counting
  import opened Slots
  import opened Protocol
  import opened Invariant

  lemma InitOwned(workers: nat, capacity: nat)
    ensures Owned(seq(workers, _ => WaitRead), [], [], AtPoll, seq(capacity, _ => EMPTY))
  {
    var children: seq<ChildPc> := seq(workers, _ => WaitRead);
    var slots := seq(capacity, _ => EMPTY);
    CountNone(HoldingMarks(children));
    CountNone(OutMarks(slots, -1));
    forall f ensures Holders(children, [], [], AtPoll, f) == Count(OutAs(slots, -1, f)) {
      CountNone(ChildMarks(children, f));
      CountNone(OutAs(slots, -1, f));
    }
  }

  lemma InitHolds(cfg: Config)
    requires cfg.Valid()
    ensures Inv(cfg, Init(cfg))
  {
    var s := Init(cfg);
    InitOwned(cfg.workers, cfg.capacity);
    CountNone(LiveMarks(s.slots));
    CountNone(ReadingMarks(s.children));
    CountNone(PostingMarks(s.children));
    CountNone(NotifyMarks(s.children));
    CountNone(LogMarks(s.children));
  }

  /* ---- ownership, step by step ---- */

  /** A step that leaves holders, signs and window alone leaves ownership alone. */
  lemma OwnedSame(children: seq<ChildPc>, socket: seq<Message>, pipe: seq<Note>,
                  pc: ParentPc, slots: seq<PollFd>, pc': ParentPc, slots': seq<PollFd>)
    requires Owned(children, socket, pipe, pc, slots)
    requires |slots'| == |slots| && forall i :: 0 <= i < |slots| ==> slots'[i].fd == slots[i].fd
    requires Window(pc') == Window(pc)
    requires InHand(pc') <==> InHand(pc)
    requires InHand(pc) ==> pc'.fd == pc.fd
    ensures Owned(children, socket, pipe, pc', slots')
  {
    assert OutMarks(slots', Window(pc')) == OutMarks(slots, Window(pc));
    forall f ensures Holders(children, socket, pipe, pc', f) == Count(OutAs(slots', Window(pc'), f)) {
      assert OutAs(slots', Window(pc'), f) == OutAs(slots, Window(pc), f);
      assert Holders(children, socket, pipe, pc, f) == Count(OutAs(slots, Window(pc), f));
    }
  }

  /** A step on slot i is paid for by what the parent takes into or out of its hand. */
  lemma OwnedSlot(children: seq<ChildPc>, socket: seq<Message>, pipe: seq<Note>,
                  pc: ParentPc, slots: seq<PollFd>, i: nat, x: PollFd, pc': ParentPc)
    requires Owned(children, socket, pipe, pc, slots) && i < |slots|
    requires || Window(pc) == Window(pc')
             || ((Window(pc) == i || Window(pc) == -1) && (Window(pc') == i || Window(pc') == -1))
    requires Bit(InHand(pc)) + Bit(OutSlot(x, i == Window(pc')))
          == Bit(InHand(pc')) + Bit(OutSlot(slots[i], i == Window(pc)))
    requires forall f :: Bit(Hand(pc, f)) + Bit(OutSlot(x, i == Window(pc')) && Abs(x.fd) == f)
                      == Bit(Hand(pc', f)) + Bit(OutSlot(slots[i], i == Window(pc)) && Abs(slots[i].fd) == f)
    ensures Owned(children, socket, pipe, pc', slots[i := x])
  {
    hide Count, ChildMarks, SocketMarks, PipeMarks, HoldingMarks, OutAs, OutMarks;
    OutUpdate(slots, Window(pc), i, x, Window(pc'));
    forall f ensures Holders(children, socket, pipe, pc', f) == Count(OutAs(slots[i := x], Window(pc'), f)) {
      OutUpdateAt(slots, Window(pc), i, x, Window(pc'), f);
      assert Holders(children, socket, pipe, pc, f) == Count(OutAs(slots, Window(pc), f));
      assert Bit(Hand(pc, f)) + Bit(OutSlot(x, i == Window(pc')) && Abs(x.fd) == f)
          == Bit(Hand(pc', f)) + Bit(OutSlot(slots[i], i == Window(pc)) && Abs(slots[i].fd) == f);
    }
  }

  lemma OwnedPipeRead(children: seq<ChildPc>, socket: seq<Message>, pipe: seq<Note>, slots: seq<PollFd>)
    requires Owned(children, socket, pipe, ReadingPipe, slots) && pipe != []
    ensures Owned(children, socket, pipe[1..], PostingPipe(pipe[0].fd, pipe[0].conn), slots)
  {
    hide Count, ChildMarks, SocketMarks, PipeMarks, HoldingMarks, OutAs, OutMarks;
    var pc := PostingPipe(pipe[0].fd, pipe[0].conn);
    forall f ensures Holders(children, socket, pipe[1..], pc, f) == Count(OutAs(slots, -1, f)) {
      PipePushPop(pipe, pipe[0], f);
      assert Holders(children, socket, pipe, ReadingPipe, f) == Count(OutAs(slots, -1, f));
    }
  }

  lemma OwnedSend(children: seq<ChildPc>, socket: seq<Message>, pipe: seq<Note>, slots: seq<PollFd>, i: nat, m: Message)
    requires Owned(children, socket, pipe, Sending(i), slots)
    requires i < |slots| && slots[i].fd > 0 && m.fd == slots[i].fd
    ensures Owned(children, socket + [m], pipe, PostingRead(i), slots)
  {
    hide Count, ChildMarks, SocketMarks, PipeMarks, HoldingMarks, OutAs, OutMarks;
    assert slots[i := slots[i]] == slots;
    OutUpdate(slots, -1, i, slots[i], i);
    forall f ensures Holders(children, socket + [m], pipe, PostingRead(i), f) == Count(OutAs(slots, i, f)) {
      SocketPushPop(socket, m, f);
      OutUpdateAt(slots, -1, i, slots[i], i, f);
      assert Holders(children, socket, pipe, Sending(i), f) == Count(OutAs(slots, -1, f));
    }
  }

  lemma OwnedChild(children: seq<ChildPc>, socket: seq<Message>, pipe: seq<Note>, pc: ParentPc, slots: seq<PollFd>,
                   i: nat, c: ChildPc)
    requires Owned(children, socket, pipe, pc, slots) && i < |children|
    requires Holding(c) <==> Holding(children[i])
    requires Holding(c) ==> c.fd == children[i].fd
    ensures Owned(children[i := c], socket, pipe, pc, slots)
  {
    hide Count, ChildMarks, SocketMarks, PipeMarks, HoldingMarks, OutAs, OutMarks;
    ChildUpdate(children, i, c);
    forall f ensures Holders(children[i := c], socket, pipe, pc, f) == Count(OutAs(slots, Window(pc), f)) {
      ChildUpdateAt(children, i, c, f);
      assert Holders(children, socket, pipe, pc, f) == Count(OutAs(slots, Window(pc), f));
    }
  }

  lemma OwnedTake(children: seq<ChildPc>, socket: seq<Message>, pipe: seq<Note>,
                  pc: ParentPc, slots: seq<PollFd>, i: nat)
    requires Owned(children, socket, pipe, pc, slots)
    requires i < |children| && children[i].RecvMsg? && socket != []
    ensures Owned(children[i := PostWrite(socket[0].fd, socket[0].conn)], socket[1..], pipe, pc, slots)
  {
    hide Count, ChildMarks, SocketMarks, PipeMarks, HoldingMarks, OutAs, OutMarks;
    var c := PostWrite(socket[0].fd, socket[0].conn);
    ChildUpdate(children, i, c);
    forall f ensures Holders(children[i := c], socket[1..], pipe, pc, f) == Count(OutAs(slots, Window(pc), f)) {
      ChildUpdateAt(children, i, c, f);
      SocketPushPop(socket, socket[0], f);
      assert Holders(children, socket, pipe, pc, f) == Count(OutAs(slots, Window(pc), f));
    }
  }

  lemma OwnedNotify(children: seq<ChildPc>, socket: seq<Message>, pipe: seq<Note>,
                    pc: ParentPc, slots: seq<PollFd>, i: nat)
    requires Owned(children, socket, pipe, pc, slots)
    requires i < |children| && children[i].WritePipe?
    ensures var c := children[i];
            Owned(children[i := WaitLog(c.fd, c.conn, c.got)], socket, pipe + [Note(c.fd, c.conn)], pc, slots)
  {
    hide Count, ChildMarks, SocketMarks, PipeMarks, HoldingMarks, OutAs, OutMarks;
    var c := children[i];
    var c' := WaitLog(c.fd, c.conn, c.got);
    ChildUpdate(children, i, c');
    forall f ensures Holders(children[i := c'], socket, pipe + [Note(c.fd, c.conn)], pc, f)
                  == Count(OutAs(slots, Window(pc), f))
    {
      ChildUpdateAt(children, i, c', f);
      PipePushPop(pipe, Note(c.fd, c.conn), f);
      assert Holders(children, socket, pipe, pc, f) == Count(OutAs(slots, Window(pc), f));
    }
  }

  /** The number in the parent's hand names one disabled slot. */
  lemma HandNamesSlot(children: seq<ChildPc>, socket: seq<Message>, pipe: seq<Note>, pc: ParentPc, slots: seq<PollFd>)
    returns (i: nat)
    requires Owned(children, socket, pipe, pc, slots) && InHand(pc)
    ensures i < |slots| && slots[i].fd < 0 && slots[i].fd == -pc.fd
  {
    assert Holders(children, socket, pipe, pc, pc.fd) == Count(OutAs(slots, Window(pc), pc.fd));
    i := HeldNamesSlot(slots, Window(pc), pc.fd);
  }

  /** Nobody holds the number of an enabled slot, so closing it pulls no connection from under a child. */
  lemma EnabledUnheld(children: seq<ChildPc>, socket: seq<Message>, pipe: seq<Note>,
                      pc: ParentPc, slots: seq<PollFd>, i: nat)
    requires Owned(children, socket, pipe, pc, slots) && Distinct(slots)
    requires i < |slots| && slots[i].fd > 0 && i != Window(pc)
    ensures forall k :: 0 <= k < |socket| ==> socket[k].fd != slots[i].fd
    ensures forall k :: 0 <= k < |pipe| ==> pipe[k].fd != slots[i].fd
    ensures forall c :: 0 <= c < |children| && Holding(children[c]) ==> children[c].fd != slots[i].fd
  {
    var f := slots[i].fd;
    EnabledNotOut(slots, Window(pc), i);
    assert Holders(children, socket, pipe, pc, f) == 0;
    forall k | 0 <= k < |socket| ensures socket[k].fd != f { SocketCounts(socket, k); }
    forall k | 0 <= k < |pipe| ensures pipe[k].fd != f { PipeCounts(pipe, k); }
    forall c | 0 <= c < |children| && Holding(children[c]) ensures children[c].fd != f { ChildCounts(children, c); }
  }

  /* ---- the parent's steps ---- */

  lemma MarkedKeeps(slots: seq<PollFd>, revents: seq<Revents>, num: int, listening: bool, open: set<int>)
    requires |slots| == |revents| && Consistent(slots, num, listening, open)
    ensures Consistent(Marked(slots, revents), num, listening, open)
    ensures NumOff(Marked(slots, revents)) == NumOff(slots)
  {
    var after := Marked(slots, revents);
    assert LiveMarks(after) == LiveMarks(slots);
    assert OffMarks(after) == OffMarks(slots);
    assert LiveFds(after) == LiveFds(slots) by {
      forall f | f in LiveFds(slots) ensures f in LiveFds(after) {
        var j :| 0 <= j < |slots| && slots[j].fd != 0 && Abs(slots[j].fd) == f;
        assert after[j].fd == slots[j].fd;
      }
    }
  }

  lemma PollAsked(cfg: Config, s: State, listenIn: bool, revents: seq<Revents>)
    requires PollEnabled(cfg, s, listenIn, revents)
    ensures Asked(Marked(s.slots, revents), 0)
  {
    forall j | 0 <= j < |s.slots| && revents[j] != QUIET ensures s.slots[j].fd > 0 {
      assert PollReports(s, s.slots[j], revents[j]);
    }
  }

  lemma PollAssemble(cfg: Config, s: State, t: State)
    requires Inv(cfg, s) && s.pc.AtPoll?
    requires t == s.(slots := t.slots, pc := t.pc) && |t.slots| == |s.slots|
    requires Consistent(t.slots, t.num, t.listening, t.open.Keys)
    requires Owned(t.children, t.socket, t.pipe, t.pc, t.slots)
    requires || (t.pc.Accepting? && t.listening)
             || (t.pc.ReadingPipe? && t.pipe != [])
             || (t.pc == Scanning(0) && Asked(t.slots, 0))
    ensures Inv(cfg, t)
  {
    hide Consistent, Owned;
  }

  lemma PollKeepsInv(cfg: Config, s: State, listenIn: bool, revents: seq<Revents>)
    requires Inv(cfg, s) && PollEnabled(cfg, s, listenIn, revents)
    ensures Inv(cfg, ApplyPoll(s, listenIn, revents))
  {
    hide Consistent, Owned;
    var t := ApplyPoll(s, listenIn, revents);
    MarkedKeeps(s.slots, revents, s.num, s.listening, s.open.Keys);
    OwnedSame(s.children, s.socket, s.pipe, s.pc, s.slots, t.pc, t.slots);
    PollAsked(cfg, s, listenIn, revents);
    PollAssemble(cfg, s, t);
  }

  lemma AcceptTable(s: State, t: State, fd: int)
    requires Table(s) && s.listening && fd > 0 && fd !in s.open
    requires FreeIndex(s.slots) < |s.slots| && t.slots == Occupied(s.slots, fd)
    requires t.open == s.open[fd := |s.conns|] && |t.conns| == |s.conns| + 1
    requires t.num == s.num + 1 && (t.listening <==> t.num < |s.slots|)
    ensures Table(t)
  {
    AcceptKeeps(s.slots, s.num, s.open.Keys, fd);
    assert t.open.Keys == s.open.Keys + {fd};
  }

  lemma AcceptPairs(s: State, fd: int)
    requires Paired(s.children, s.socket, s.pipe, s.open) && fd !in s.open
    ensures Paired(s.children, s.socket, s.pipe, s.open[fd := |s.conns|])
  {
  }

  lemma AcceptKeepsInv(cfg: Config, s: State, fd: int)
    requires Inv(cfg, s) && AcceptEnabled(s, fd)
    ensures Inv(cfg, ApplyAccept(cfg, s, fd))
  {
    hide Count;
    var t := ApplyAccept(cfg, s, fd);
    var i := FreeIndex(s.slots);
    AcceptTable(s, t, fd);
    AcceptPairs(s, fd);
    assert s.slots[i].fd == 0 by { AcceptKeeps(s.slots, s.num, s.open.Keys, fd); }
    OwnedSlot(s.children, s.socket, s.pipe, s.pc, s.slots, i, t.slots[i], t.pc);
  }

  lemma PipeReadKeepsInv(cfg: Config, s: State)
    requires Inv(cfg, s) && s.pc.ReadingPipe?
    ensures Inv(cfg, ApplyParent(cfg, s))
  {
    OwnedPipeRead(s.children, s.socket, s.pipe, s.slots);
  }

  lemma QuietMoveKeepsInv(cfg: Config, s: State)
    requires Inv(cfg, s) && ParentEnabled(cfg, s)
    requires s.pc.PostingPipe? || s.pc.WaitingWrite? || s.pc.PostingRead?
    ensures Inv(cfg, ApplyParent(cfg, s))
  {
    OwnedSame(s.children, s.socket, s.pipe, s.pc, s.slots, ApplyParent(cfg, s).pc, s.slots);
  }

  lemma ReenableKeepsInv(cfg: Config, s: State)
    requires Inv(cfg, s) && s.pc.Reenabling?
    ensures Inv(cfg, ApplyParent(cfg, s))
  {
    hide Count, Owned;
    var i := HandNamesSlot(s.children, s.socket, s.pipe, s.pc, s.slots);
    ReenableIsOneFlip(s.slots, i);
    var x := s.slots[i].(fd := s.pc.fd);
    SignKeeps(s.slots, s.num, s.listening, s.open.Keys, i, x);
    OwnedSlot(s.children, s.socket, s.pipe, s.pc, s.slots, i, x, AtPoll);
  }

  lemma RemoveTable(s: State, t: State, i: nat)
    requires Table(s) && i < |s.slots| && s.slots[i].fd > 0
    requires t.slots == Cleared(s.slots, i) && t.open == s.open - {s.slots[i].fd}
    requires t.num == s.num - 1 && t.conns == s.conns
    requires t.listening <==> s.listening || t.num < |s.slots|
    ensures Table(t)
  {
    RemoveKeeps(s.slots, s.num, s.listening, s.open.Keys, i);
    assert t.open.Keys == s.open.Keys - {s.slots[i].fd};
  }

  lemma RemovePairs(s: State, i: nat)
    requires Paired(s.children, s.socket, s.pipe, s.open)
    requires Owned(s.children, s.socket, s.pipe, s.pc, s.slots) && Distinct(s.slots)
    requires i < |s.slots| && s.slots[i].fd > 0 && i != Window(s.pc)
    ensures Paired(s.children, s.socket, s.pipe, s.open - {s.slots[i].fd})
  {
    EnabledUnheld(s.children, s.socket, s.pipe, s.pc, s.slots, i);
  }

  lemma ScanRemoveKeepsInv(cfg: Config, s: State)
    requires Inv(cfg, s) && s.pc.Scanning? && s.pc.slot < |s.slots| && Gone(s.slots[s.pc.slot].revents)
    ensures Inv(cfg, ApplyParent(cfg, s))
  {
    hide Count;
    var t := ApplyParent(cfg, s);
    var i := s.pc.slot;
    RemoveTable(s, t, i);
    RemovePairs(s, i);
    OwnedSlot(s.children, s.socket, s.pipe, s.pc, s.slots, i, EMPTY, t.pc);
  }

  lemma ScanKeepsInv(cfg: Config, s: State)
    requires Inv(cfg, s) && s.pc.Scanning?
    ensures Inv(cfg, ApplyParent(cfg, s))
  {
    hide Count, Owned;
    var i := s.pc.slot;
    if i == |s.slots| {
      OwnedSame(s.children, s.socket, s.pipe, s.pc, s.slots, AtPoll, s.slots);
    } else if JustIn(s.slots[i].revents) {
      OwnedSame(s.children, s.socket, s.pipe, s.pc, s.slots, WaitingWrite(i), s.slots);
    } else if Gone(s.slots[i].revents) {
      ScanRemoveKeepsInv(cfg, s);
    } else {
      var t := ApplyParent(cfg, s);
      SignKeeps(s.slots, s.num, s.listening, s.open.Keys, i, t.slots[i]);
      OwnedSlot(s.children, s.socket, s.pipe, s.pc, s.slots, i, t.slots[i], t.pc);
    }
  }

  lemma SendKeepsInv(cfg: Config, s: State)
    requires Inv(cfg, s) && s.pc.Sending?
    ensures ParentEnabled(cfg, s)
    ensures Inv(cfg, ApplyParent(cfg, s))
  {
    var i := s.pc.slot;
    var f := s.slots[i].fd;
    assert Abs(f) in LiveFds(s.slots);
    OwnedSend(s.children, s.socket, s.pipe, s.slots, i, Message(f, s.open[f]));
  }

  lemma NegateKeepsInv(cfg: Config, s: State)
    requires Inv(cfg, s) && s.pc.Negating?
    ensures Inv(cfg, ApplyParent(cfg, s))
  {
    var t := ApplyParent(cfg, s);
    var i := s.pc.slot;
    SignKeeps(s.slots, s.num, s.listening, s.open.Keys, i, t.slots[i]);
    OwnedSlot(s.children, s.socket, s.pipe, s.pc, s.slots, i, t.slots[i], t.pc);
  }

  lemma ParentKeepsInv(cfg: Config, s: State)
    requires Inv(cfg, s) && ParentEnabled(cfg, s)
    ensures Inv(cfg, ApplyParent(cfg, s))
  {
    match s.pc
    case ReadingPipe => PipeReadKeepsInv(cfg, s);
    case PostingPipe(_, _) => QuietMoveKeepsInv(cfg, s);
    case Reenabling(_, _) => ReenableKeepsInv(cfg, s);
    case Scanning(_) => ScanKeepsInv(cfg, s);
    case WaitingWrite(_) => QuietMoveKeepsInv(cfg, s);
    case Sending(_) => SendKeepsInv(cfg, s);
    case PostingRead(_) => QuietMoveKeepsInv(cfg, s);
    case Negating(_) => NegateKeepsInv(cfg, s);
  }

  /* ---- a child's steps ---- */

  lemma ChildKeepsOwned(s: State, i: nat, garbage: seq<byte>)
    requires Owned(s.children, s.socket, s.pipe, s.pc, s.slots)
    requires i < |s.children| && |garbage| == 4 && ChildEnabled(s, i)
    ensures var t := ApplyChild(s, i, garbage); Owned(t.children, t.socket, t.pipe, t.pc, t.slots)
  {
    var t := ApplyChild(s, i, garbage);
    if s.children[i].RecvMsg? {
      OwnedTake(s.children, s.socket, s.pipe, s.pc, s.slots, i);
    } else if s.children[i].WritePipe? {
      OwnedNotify(s.children, s.socket, s.pipe, s.pc, s.slots, i);
    } else {
      OwnedChild(s.children, s.socket, s.pipe, s.pc, s.slots, i, t.children[i]);
    }
  }

  lemma ChildKeepsDomainToken(s: State, i: nat, garbage: seq<byte>)
    requires DomainToken(s)
    requires i < |s.children| && |garbage| == 4 && ChildEnabled(s, i)
    ensures DomainToken(ApplyChild(s, i, garbage))
  {
    hide Count, ReadingMarks, PostingMarks, NotifyMarks, LogMarks, HoldingMarks;
    ChildUpdate(s.children, i, ApplyChild(s, i, garbage).children[i]);
  }

  lemma ChildKeepsPipeToken(s: State, i: nat, garbage: seq<byte>)
    requires PipeToken(s)
    requires i < |s.children| && |garbage| == 4 && ChildEnabled(s, i)
    ensures PipeToken(ApplyChild(s, i, garbage))
  {
    hide Count, ReadingMarks, PostingMarks, NotifyMarks, LogMarks, HoldingMarks;
    ChildUpdate(s.children, i, ApplyChild(s, i, garbage).children[i]);
  }

  lemma ChildKeepsLogToken(s: State, i: nat, garbage: seq<byte>)
    requires LogToken(s)
    requires i < |s.children| && |garbage| == 4 && ChildEnabled(s, i)
    ensures LogToken(ApplyChild(s, i, garbage))
  {
    hide Count, ReadingMarks, PostingMarks, NotifyMarks, LogMarks, HoldingMarks;
    ChildUpdate(s.children, i, ApplyChild(s, i, garbage).children[i]);
  }

  lemma ChildKeepsPairs(s: State, i: nat, garbage: seq<byte>)
    requires Paired(s.children, s.socket, s.pipe, s.open) && Known(s.children, |s.conns|) && OpenOk(s.open, |s.conns|)
    requires i < |s.children| && |garbage| == 4 && ChildEnabled(s, i)
    ensures var t := ApplyChild(s, i, garbage);
            Paired(t.children, t.socket, t.pipe, t.open) && Known(t.children, |t.conns|)
  {
  }

  /** A child touches nothing of the parent's, and puts nothing but a number into the pipe. */
  lemma ChildFrame(s: State, i: nat, garbage: seq<byte>)
    requires i < |s.children| && |garbage| == 4 && ChildEnabled(s, i)
    ensures var t := ApplyChild(s, i, garbage);
            && t.slots == s.slots && t.num == s.num && t.listening == s.listening && t.pc == s.pc && t.open == s.open
            && |t.children| == |s.children| && |t.conns| == |s.conns|
            && (s.pipe != [] ==> t.pipe != [])
  {
  }

  lemma ChildAssemble(cfg: Config, s: State, t: State)
    requires Inv(cfg, s)
    requires t.slots == s.slots && t.num == s.num && t.listening == s.listening && t.pc == s.pc && t.open == s.open
    requires |t.children| == |s.children| && |t.conns| == |s.conns|
    requires s.pipe != [] ==> t.pipe != []
    requires Tokens(t) && Owned(t.children, t.socket, t.pipe, t.pc, t.slots)
    requires Paired(t.children, t.socket, t.pipe, t.open) && Known(t.children, |t.conns|)
    ensures Inv(cfg, t)
  {
  }

  lemma ChildKeepsInv(cfg: Config, s: State, i: nat, garbage: seq<byte>)
    requires Inv(cfg, s) && i < |s.children| && |garbage| == 4 && ChildEnabled(s, i)
    ensures Inv(cfg, ApplyChild(s, i, garbage))
  {
    ChildFrame(s, i, garbage);
    ChildKeepsOwned(s, i, garbage);
    ChildKeepsDomainToken(s, i, garbage);
    ChildKeepsPipeToken(s, i, garbage);
    ChildKeepsLogToken(s, i, garbage);
    ChildKeepsPairs(s, i, garbage);
    ChildAssemble(cfg, s, ApplyChild(s, i, garbage));
  }

  /* ---- all of it ---- */

  /** Clients change nothing but what is queued on their connections. */
  lemma ClientKeepsInv(cfg: Config, s: State, t: State)
    requires Inv(cfg, s) && t == s.(conns := t.conns) && |t.conns| == |s.conns|
    ensures Inv(cfg, t)
  {
  }

  lemma StepKeepsInv(cfg: Config, s: State, step: Step)
    requires Inv(cfg, s) && Enabled(cfg, s, step)
    ensures Inv(cfg, Apply(cfg, s, step))
  {
    match step
    case Poll(listenIn, revents) => PollKeepsInv(cfg, s, listenIn, revents);
    case Accept(fd) => AcceptKeepsInv(cfg, s, fd);
    case Parent => ParentKeepsInv(cfg, s);
    case Child(i, garbage) => ChildKeepsInv(cfg, s, i, garbage);
    case _ => ClientKeepsInv(cfg, s, Apply(cfg, s, step));
  }

  lemma {:induction false} LeadsKeepsInv(cfg: Config, s: State, steps: seq<Step>, t: State)
    requires Inv(cfg, s) && Leads(cfg, s, steps, t)
    ensures Inv(cfg, t)
    decreases |steps|
  {
    if steps != [] {
      StepKeepsInv(cfg, s, steps[0]);
      LeadsKeepsInv(cfg, Apply(cfg, s, steps[0]), steps[1..], t);
    }
  }

  /** The joint invariant holds in every reachable interleaving, for any numbers of children and slots. */
  lemma ReachableHasInv(cfg: Config, t: State)
    requires Reachable(cfg, t)
    ensures Inv(cfg, t)
  {
    var steps :| Leads(cfg, Init(cfg), steps, t);
    InitHolds(cfg);
    LeadsKeepsInv(cfg, Init(cfg), steps, t);
  }
}
