/** The process server with closed-loop clients refines the atomic server, step by step and over whole runs. */
module Refinement {
  import opened Bytes
  import opened Counting
  import opened Slots
  import opened Protocol
  import opened Invariant
  import opened Steps
  import opened ClosedLoop

  /* ---- reports stay true until they are acted on ---- */

  /** A connection about to be dispatched or closed by the sweep is in nobody's hands. */
  lemma PendingUnheld(cfg: Config, s: State, j: nat)
    requires Inv(cfg, s) && 0 <= Pending(s.pc) <= j < |s.slots|
    requires s.slots[j].fd > 0 && s.slots[j].fd in s.open
    ensures forall i :: 0 <= i < |s.children| && Holding(s.children[i]) ==>
              s.children[i].conn != s.open[s.slots[j].fd]
    ensures forall k :: 0 <= k < |s.socket| ==> s.socket[k].conn != s.open[s.slots[j].fd]
  {
    EnabledUnheld(s.children, s.socket, s.pipe, s.pc, s.slots, j);
  }

  lemma ChildKeepsFed(cfg: Config, s: State, i: nat, garbage: seq<byte>)
    requires Inv(cfg, s) && Fed(s)
    requires i < |s.children| && |garbage| == 4 && ChildEnabled(s, i)
    ensures Fed(ApplyChild(s, i, garbage))
  {
    ChildFrame(s, i, garbage);
    var t := ApplyChild(s, i, garbage);
    if Pending(s.pc) >= 0 {
      forall j | Pending(s.pc) <= j < |s.slots| ensures SlotFed(t.slots[j], t.open, t.conns) {
        var slot := s.slots[j];
        assert SlotFed(slot, s.open, s.conns);
        if JustIn(slot.revents) || Gone(slot.revents) {
          PendingUnheld(cfg, s, j);
          ChildSpares(s, i, garbage, s.open[slot.fd]);
        }
      }
    }
  }

  /** A child drains only the connection it holds, and closes none. */
  lemma ChildSpares(s: State, i: nat, garbage: seq<byte>, c: nat)
    requires i < |s.children| && |garbage| == 4 && ChildEnabled(s, i) && c < |s.conns|
    ensures var t := ApplyChild(s, i, garbage);
            && |t.conns| == |s.conns|
            && t.conns[c].eof == s.conns[c].eof
            && (!Holding(s.children[i]) || s.children[i].conn != c ==> t.conns[c].inb == s.conns[c].inb)
  {
  }

  lemma PollFeeds(cfg: Config, s: State, listenIn: bool, revents: seq<Revents>)
    requires Inv(cfg, s) && PollEnabled(cfg, s, listenIn, revents)
    ensures Fed(ApplyPoll(s, listenIn, revents))
  {
    var t := ApplyPoll(s, listenIn, revents);
    forall j | 0 <= j < |t.slots| ensures SlotFed(t.slots[j], t.open, t.conns) {
      assert PollReports(s, s.slots[j], revents[j]);
    }
  }

  /** Acting on slot i leaves the reports about later slots as true as they were. */
  lemma LaterSlotsFed(slots: seq<PollFd>, open: map<int, nat>, conns: seq<Conn>, i: nat, x: PollFd, j: nat)
    requires i < j < |slots| && SlotFed(slots[j], open, conns)
    requires slots[j].fd != 0 ==> slots[i].fd != slots[j].fd
    ensures SlotFed(slots[i := x][j], open, conns)
    ensures SlotFed(slots[i := x][j], open - {slots[i].fd}, conns)
  {
  }

  lemma ScanKeepsFed(cfg: Config, s: State)
    requires Distinct(s.slots) && Fed(s) && s.pc.Scanning? && s.pc.slot < |s.slots|
    ensures Fed(ApplyScan(cfg, s, s.pc.slot))
  {
    var i := s.pc.slot;
    var t := ApplyScan(cfg, s, i);
    forall j | Pending(t.pc) <= j < |t.slots| ensures SlotFed(t.slots[j], t.open, t.conns) {
      assert SlotFed(s.slots[j], s.open, s.conns);
      if i < j {
        LaterSlotsFed(s.slots, s.open, s.conns, i, t.slots[i], j);
      }
    }
  }

  lemma DispatchKeepsFed(cfg: Config, s: State)
    requires Fed(s) && ParentEnabled(cfg, s)
    requires s.pc.WaitingWrite? || s.pc.Sending? || s.pc.PostingRead? || s.pc.Negating?
    ensures Fed(ApplyParent(cfg, s))
  {
    var t := ApplyParent(cfg, s);
    forall j | Pending(t.pc) <= j < |t.slots| ensures SlotFed(t.slots[j], t.open, t.conns) {
      assert SlotFed(s.slots[j], s.open, s.conns);
    }
  }

  lemma ParentKeepsFed(cfg: Config, s: State)
    requires Inv(cfg, s) && Fed(s) && ParentEnabled(cfg, s)
    ensures Fed(ApplyParent(cfg, s))
  {
    if s.pc.Scanning? {
      if s.pc.slot < |s.slots| {
        ScanKeepsFed(cfg, s);
      }
    } else if Pending(s.pc) >= 0 {
      DispatchKeepsFed(cfg, s);
    }
  }

  /* ---- one connection through one child's step ---- */

  /** A step of child i that has nothing to do with connection c. */
  lemma Elsewhere(children: seq<ChildPc>, socket: seq<Message>, i: nat, ch: ChildPc, socket': seq<Message>,
                  c: nat, conn: Conn, client: Client)
    requires ConnOk(children, socket, c, conn, client) && i < |children|
    requires !Serving(children[i], c) && !Serving(ch, c)
    requires socket' == socket || (socket != [] && socket' == socket[1..])
    ensures ConnOk(children[i := ch], socket', c, conn, client)
  {
    var after := children[i := ch];
    if p :| 0 <= p < |children| && Serving(children[p], c) {
      assert Serving(after[p], c);
    }
    forall k | 0 <= k < |socket'| ensures socket'[k] in socket {
    }
    forall p | 0 <= p < |after| && Serving(after[p], c) ensures Serving(children[p], c) {
    }
  }

  /** Child i goes on serving c. */
  lemma GoesOn(children: seq<ChildPc>, socket: seq<Message>, i: nat, ch: ChildPc,
               c: nat, conn: Conn, conn': Conn, client: Client)
    requires ConnOk(children, socket, c, conn, client) && i < |children|
    requires Serving(children[i], c) && Serving(ch, c)
    requires conn'.eof == conn.eof
    requires !client.Left? ==> Phase(ch, conn', client)
    ensures ConnOk(children[i := ch], socket, c, conn', client)
  {
    var after := children[i := ch];
    forall p | 0 <= p < |after| && Serving(after[p], c) ensures Serving(children[p], c) {
    }
    assert Serving(after[i], c);
  }

  /** Child i has sent its reply. */
  lemma Finishes(children: seq<ChildPc>, socket: seq<Message>, i: nat, c: nat, conn: Conn, client: Client)
    requires ConnOk(children, socket, c, conn, client) && i < |children|
    requires children[i].Reply? && children[i].conn == c
    ensures var ch := children[i];
            ConnOk(children[i := CloseFd(ch.fd, c)], socket, c, conn.(outb := conn.outb + Be32(ch.got)), client)
  {
    var ch := children[i];
    assert Serving(ch, c);
    var after := children[i := CloseFd(ch.fd, c)];
    forall p | 0 <= p < |after| && Serving(after[p], c) ensures Serving(children[p], c) && p != i {
    }
    if !client.Left? {
      assert Phase(ch, conn, client);
      assert [] + Be32(ch.got) == Be32(ch.got);
    }
  }

  /** Child i takes c's message off the socket. */
  lemma TakesUp(children: seq<ChildPc>, m: Message, i: nat, conn: Conn, client: Client)
    requires ConnOk(children, [m], m.conn, conn, client) && i < |children|
    requires children[i].RecvMsg?
    ensures ConnOk(children[i := PostWrite(m.fd, m.conn)], [], m.conn, conn, client)
  {
    var after := children[i := PostWrite(m.fd, m.conn)];
    assert Serving(after[i], m.conn);
    assert [m][0].conn == m.conn;
    forall p | 0 <= p < |after| && p != i ensures Serving(after[p], m.conn) <==> Serving(children[p], m.conn) {
    }
  }

  /** The header read finds its four octets and decodes the announced length. */
  lemma ReadsHeader(conn: Conn, client: Client, fd: int, c: nat, garbage: seq<byte>)
    requires Waiting(conn, client) && |garbage| == 4
    ensures var h := Min(4, |conn.inb|);
            && h == 4
            && Phase(Receive(fd, c, FromBe32(conn.inb[..h] + garbage[h..]), 0, 1), conn.(inb := conn.inb[h..]), client)
  {
    assert conn.inb[..4] + garbage[4..] == conn.inb[..4];
  }

  /** One turn of the receive loop: it cannot read past the request, so the 32-bit sum cannot wrap. */
  lemma ReadsPayload(conn: Conn, client: Client, fd: int, c: nat, toRead: uint32, got: uint32, last: nat)
    requires Phase(Receive(fd, c, toRead, got, last), conn, client) && !conn.eof
    requires got < toRead ==> conn.inb != []
    ensures got < toRead ==>
              var k := Min(CHUNK, |conn.inb|);
              Phase(Receive(fd, c, toRead, (got + k) % TWO_32, k), conn.(inb := conn.inb[k..]), client)
    ensures got >= toRead ==> Phase(WaitPipe(fd, c, got), conn, client)
  {
  }

  /** A child that is about to take a message finds exactly one. */
  lemma OneMessage(s: State, i: nat)
    requires DomainToken(s) && i < |s.children| && s.children[i].RecvMsg?
    ensures |s.socket| == 1
  {
    CountSome(ReadingMarks(s.children), i);
  }

  lemma ChildKeepsConn(s: State, i: nat, garbage: seq<byte>, c: nat, client: Client)
    requires i < |s.children| && |garbage| == 4 && ChildEnabled(s, i)
    requires c < |s.conns| && ConnOk(s.children, s.socket, c, s.conns[c], client)
    requires DomainToken(s)
    ensures var t := ApplyChild(s, i, garbage);
            |t.conns| == |s.conns| && ConnOk(t.children, t.socket, c, t.conns[c], client)
  {
    hide ConnOk, DomainToken;
    var t := ApplyChild(s, i, garbage);
    var conn, ch := s.conns[c], s.children[i];
    if ch.RecvMsg? {
      OneMessage(s, i);
      assert s.socket == [s.socket[0]];
      if s.socket[0].conn == c {
        assert t.socket == [];
        TakesUp(s.children, s.socket[0], i, conn, client);
      } else {
        Elsewhere(s.children, s.socket, i, t.children[i], t.socket, c, conn, client);
      }
    } else if !Serving(ch, c) {
      Elsewhere(s.children, s.socket, i, t.children[i], t.socket, c, conn, client);
    } else if ch.Reply? {
      Finishes(s.children, s.socket, i, c, conn, client);
    } else {
      ServingPhase(s.children, s.socket, i, c, conn, client);
      ServingKeepsPhase(s, i, garbage, client);
      GoesOn(s.children, s.socket, i, t.children[i], c, conn, t.conns[c], client);
    }
  }

  lemma ServingPhase(children: seq<ChildPc>, socket: seq<Message>, i: nat, c: nat, conn: Conn, client: Client)
    requires ConnOk(children, socket, c, conn, client) && i < |children| && Serving(children[i], c)
    ensures !client.Left? ==> !conn.eof && Phase(children[i], conn, client)
  {
  }

  lemma ServingKeepsPhase(s: State, i: nat, garbage: seq<byte>, client: Client)
    requires i < |s.children| && |garbage| == 4 && ChildEnabled(s, i)
    requires Busy(s.children[i]) && s.children[i].conn < |s.conns|
    requires !s.children[i].Reply? && !s.children[i].CloseFd?
    requires !client.Left? ==>
               !s.conns[s.children[i].conn].eof && Phase(s.children[i], s.conns[s.children[i].conn], client)
    ensures var c := s.children[i].conn;
            var t := ApplyChild(s, i, garbage);
            && |t.conns| == |s.conns| && t.socket == s.socket
            && t.conns[c].eof == s.conns[c].eof && Serving(t.children[i], c)
            && (!client.Left? ==> Phase(t.children[i], t.conns[c], client))
  {
    var ch := s.children[i];
    if !client.Left? {
      match ch
      case Header(fd, c) => ReadsHeader(s.conns[c], client, fd, c, garbage);
      case Receive(fd, c, toRead, got, last) => ReadsPayload(s.conns[c], client, fd, c, toRead, got, last);
      case _ =>
    }
  }

  lemma ChildKeepsWorld(cfg: Config, w: World, i: nat, garbage: seq<byte>)
    requires WorldInv(cfg, w)
    requires i < |w.s.children| && |garbage| == 4 && ChildEnabled(w.s, i)
    ensures WorldInv(cfg, World(ApplyChild(w.s, i, garbage), w.clients))
  {
    hide Fed, ConnOk, Consistent, Owned;
    ChildKeepsInv(cfg, w.s, i, garbage);
    ChildKeepsFed(cfg, w.s, i, garbage);
    ChildFrame(w.s, i, garbage);
    var t := ApplyChild(w.s, i, garbage);
    forall c | 0 <= c < |w.clients| ensures ConnOk(t.children, t.socket, c, t.conns[c], w.clients[c]) {
      ChildKeepsConn(w.s, i, garbage, c, w.clients[c]);
    }
  }

  /* ---- the parent's steps ---- */

  /** What the parent is about to dispatch for a client that is still there is a request nobody has touched. */
  lemma DispatchIsFresh(cfg: Config, w: World)
    requires WorldInv(cfg, w) && (w.s.pc.WaitingWrite? || w.s.pc.Sending?)
    ensures var slot := w.s.slots[w.s.pc.slot];
            && slot.fd in w.s.open && w.s.open[slot.fd] < |w.clients|
            && var c := w.s.open[slot.fd];
               !w.clients[c].Left? ==>
                 && Waiting(w.s.conns[c], w.clients[c])
                 && (forall i :: 0 <= i < |w.s.children| ==> !Serving(w.s.children[i], c))
                 && (forall k :: 0 <= k < |w.s.socket| ==> w.s.socket[k].conn != c)
  {
    var s := w.s;
    var j := s.pc.slot;
    assert SlotFed(s.slots[j], s.open, s.conns);
    PendingUnheld(cfg, s, j);
    var c := s.open[s.slots[j].fd];
    assert ConnOk(s.children, s.socket, c, s.conns[c], w.clients[c]);
    if !w.clients[c].Left? {
      forall i | 0 <= i < |s.children| ensures !Serving(s.children[i], c) {
      }
    }
  }

  /** Sending puts the connection's message into the socket. */
  lemma Sends(children: seq<ChildPc>, socket: seq<Message>, m: Message, c: nat, conn: Conn, client: Client)
    requires ConnOk(children, socket, c, conn, client)
    requires m.conn == c && !client.Left? ==>
               Waiting(conn, client) && forall i :: 0 <= i < |children| ==> !Serving(children[i], c)
    ensures ConnOk(children, socket + [m], c, conn, client)
  {
    forall k | 0 <= k < |socket + [m]| ensures k < |socket| ==> (socket + [m])[k] == socket[k] {
    }
  }

  lemma ParentKeepsWorld(cfg: Config, w: World)
    requires WorldInv(cfg, w) && ParentEnabled(cfg, w.s)
    ensures WorldInv(cfg, World(ApplyParent(cfg, w.s), w.clients))
  {
    hide ConnOk, Consistent, Owned;
    ParentKeepsInv(cfg, w.s);
    ParentKeepsFed(cfg, w.s);
    var s, t := w.s, ApplyParent(cfg, w.s);
    if s.pc.Sending? {
      DispatchIsFresh(cfg, w);
      forall c | 0 <= c < |w.clients| ensures ConnOk(t.children, t.socket, c, t.conns[c], w.clients[c]) {
        Sends(s.children, s.socket, t.socket[|s.socket|], c, s.conns[c], w.clients[c]);
      }
    } else {
      assert t.children == s.children && t.socket == s.socket && t.conns == s.conns;
    }
  }

  lemma AcceptKeepsWorld(cfg: Config, w: World, fd: int)
    requires WorldInv(cfg, w) && AcceptEnabled(w.s, fd)
    ensures WorldInv(cfg, World(ApplyAccept(cfg, w.s, fd), w.clients + [Thinking]))
  {
    AcceptKeepsInv(cfg, w.s, fd);
    var s, t := w.s, ApplyAccept(cfg, w.s, fd);
    var clients := w.clients + [Thinking];
    forall c | 0 <= c < |clients| ensures ConnOk(t.children, t.socket, c, t.conns[c], clients[c]) {
      if c < |w.clients| {
        assert ConnOk(s.children, s.socket, c, s.conns[c], w.clients[c]);
      } else {
        assert forall k :: 0 <= k < |s.socket| ==> Names(s.open, s.socket[k].fd, s.socket[k].conn);
        assert AtRest(t.conns[c], clients[c]);
      }
    }
  }

  lemma ServerKeepsWorld(cfg: Config, w: World, step: Step)
    requires WorldInv(cfg, w) && ServerStep(step) && Enabled(cfg, w.s, step)
    ensures WorldInv(cfg, Do(cfg, w, Server(step)))
  {
    match step
    case Poll(listenIn, revents) =>
      PollKeepsInv(cfg, w.s, listenIn, revents);
      PollFeeds(cfg, w.s, listenIn, revents);
    case Accept(fd) => AcceptKeepsWorld(cfg, w, fd);
    case Parent => ParentKeepsWorld(cfg, w);
    case Child(i, garbage) => ChildKeepsWorld(cfg, w, i, garbage);
  }

  /* ---- the clients' moves ---- */

  /** Bytes that arrive turn a resting connection into a waiting one, or add to a request under way. */
  lemma Arrives(children: seq<ChildPc>, socket: seq<Message>, c: nat, conn: Conn, client: Client,
                bytes: seq<byte>, client': Client)
    requires ConnOk(children, socket, c, conn, client) && !client.Left?
    requires client'.Asking? && bytes != []
    requires client.Thinking? ==>
               |bytes| >= 4 && FromBe32(bytes[..4]) == client'.n && |bytes| + |client'.rest| == 4 + client'.n as int
    requires client.Asking? ==> client'.n == client.n && bytes + client'.rest == client.rest
    ensures ConnOk(children, socket, c, conn.(inb := conn.inb + bytes), client')
  {
    var conn' := conn.(inb := conn.inb + bytes);
    if client.Asking? {
      assert |client.rest| == |bytes| + |client'.rest|;
      if |conn.inb| >= 4 {
        assert conn'.inb[..4] == conn.inb[..4];
      }
    } else {
      assert conn.inb + bytes == bytes by {
        assert forall i :: 0 <= i < |children| && Serving(children[i], c) ==> Phase(children[i], conn, client);
      }
    }
  }

  /** A reply can be taken only when nobody is serving, and leaves the connection at rest. */
  lemma Takes(children: seq<ChildPc>, socket: seq<Message>, c: nat, conn: Conn, client: Client)
    requires ConnOk(children, socket, c, conn, client)
    requires client.Asking? && client.rest == [] && |conn.outb| >= 4
    ensures Replied(conn, client)
    ensures ConnOk(children, socket, c, conn.(outb := conn.outb[4..]), Thinking)
  {
    assert forall i :: 0 <= i < |children| && Serving(children[i], c) ==> Phase(children[i], conn, client);
  }

  lemma ClientKeepsFed(s: State, t: State)
    requires Fed(s) && t == s.(conns := t.conns) && |t.conns| == |s.conns|
    requires forall c :: 0 <= c < |s.conns| ==>
               (s.conns[c].eof ==> t.conns[c].eof) && (s.conns[c].Readable() ==> t.conns[c].Readable())
    ensures Fed(t)
  {
    if Pending(t.pc) >= 0 {
      forall j | Pending(t.pc) <= j < |t.slots| ensures SlotFed(t.slots[j], t.open, t.conns) {
        assert SlotFed(s.slots[j], s.open, s.conns);
      }
    }
  }

  /** The first piece of a request, which has the header, and what is left of it. */
  lemma FirstPiece(payload: seq<byte>, first: nat)
    requires |payload| < TWO_32 && 4 <= first <= 4 + |payload|
    ensures var frame := Framing.Frame(payload);
            && |frame[..first]| >= 4 && FromBe32(frame[..first][..4]) == |payload|
            && |frame[..first]| + |frame[first..]| == 4 + |payload|
  {
    Be32RoundTrip(|payload|);
    hide FromBe32, Be32;
    var frame := Framing.Frame(payload);
    assert frame[..first][..4] == Be32(|payload|);
  }

  /** Of a client that has left nothing is said but that its connection is at its end. */
  lemma Leaves(children: seq<ChildPc>, socket: seq<Message>, c: nat, conn: Conn)
    ensures ConnOk(children, socket, c, conn.(eof := true), Left)
  {
  }

  lemma ClientMoveKeepsConn(cfg: Config, w: World, m: Move)
    requires MoveEnabled(cfg, w, m) && !m.Server?
    requires ConnOk(w.s.children, w.s.socket, m.c, w.s.conns[m.c], w.clients[m.c])
    ensures var u := Do(cfg, w, m);
            |u.s.conns| == |w.s.conns| && ConnOk(u.s.children, u.s.socket, m.c, u.s.conns[m.c], u.clients[m.c])
  {
    hide ConnOk, FromBe32, Framing.Frame, Be32;
    var s, c := w.s, m.c;
    match m
    case Ask(_, payload, first) =>
      var frame := Framing.Frame(payload);
      FirstPiece(payload, first);
      Arrives(s.children, s.socket, c, s.conns[c], w.clients[c], frame[..first], Asking(|payload|, frame[first..]));
    case More(_, k) =>
      var rest := w.clients[c].rest;
      assert rest[..k] + rest[k..] == rest;
      Arrives(s.children, s.socket, c, s.conns[c], w.clients[c], rest[..k], Asking(w.clients[c].n, rest[k..]));
    case Take(_) => Takes(s.children, s.socket, c, s.conns[c], w.clients[c]);
    case Leave(_) => Leaves(s.children, s.socket, c, s.conns[c]);
  }

  lemma ClientMoveKeepsWorld(cfg: Config, w: World, m: Move)
    requires WorldInv(cfg, w) && MoveEnabled(cfg, w, m) && !m.Server?
    ensures WorldInv(cfg, Do(cfg, w, m))
  {
    hide ConnOk, Inv, Fed;
    var u := Do(cfg, w, m);
    ClientKeepsInv(cfg, w.s, u.s);
    ClientKeepsFed(w.s, u.s);
    forall c | 0 <= c < |u.clients| ensures ConnOk(u.s.children, u.s.socket, c, u.s.conns[c], u.clients[c]) {
      assert ConnOk(w.s.children, w.s.socket, c, w.s.conns[c], w.clients[c]);
      if c == m.c {
        ClientMoveKeepsConn(cfg, w, m);
      }
    }
  }

  lemma MoveKeepsWorld(cfg: Config, w: World, m: Move)
    requires WorldInv(cfg, w) && MoveEnabled(cfg, w, m)
    ensures WorldInv(cfg, Do(cfg, w, m))
  {
    if m.Server? {
      ServerKeepsWorld(cfg, w, m.step);
    } else {
      ClientMoveKeepsWorld(cfg, w, m);
    }
  }

  /* ---- refinement ---- */

  /** The reply is the moment at which the atomic server serves: the whole request is in, and its length goes out. */
  lemma ReplyIsService(cfg: Config, w: World, i: nat, garbage: seq<byte>)
    requires WorldInv(cfg, w) && |garbage| == 4
    requires i < |w.s.children| && w.s.children[i].Reply? && ChildEnabled(w.s, i)
    ensures w.s.children[i].conn < |w.clients|
    ensures var c := w.s.children[i].conn;
            var n := w.s.children[i].got;
            var t := ApplyChild(w.s, i, garbage);
            !w.clients[c].Left? ==>
              && View(w.s.conns[c], w.clients[c]) == Asked(n, true)
              && View(t.conns[c], w.clients[c]) == Answered(n)
  {
    var c := w.s.children[i].conn;
    assert ConnOk(w.s.children, w.s.socket, c, w.s.conns[c], w.clients[c]);
    assert Serving(w.s.children[i], c);
    if !w.clients[c].Left? {
      assert Phase(w.s.children[i], w.s.conns[c], w.clients[c]);
      var n := w.s.children[i].got;
      Be32RoundTrip(n);
      assert ([] + Be32(n))[..4] == Be32(n);
    }
  }

  lemma ChildRefines(cfg: Config, w: World, i: nat, garbage: seq<byte>)
    requires WorldInv(cfg, w)
    requires i < |w.s.children| && |garbage| == 4 && ChildEnabled(w.s, i)
    ensures |ApplyChild(w.s, i, garbage).conns| == |w.s.conns|
    ensures AtomicStep(Sessions(w), Sessions(World(ApplyChild(w.s, i, garbage), w.clients)))
  {
    ChildFrame(w.s, i, garbage);
    var u := World(ApplyChild(w.s, i, garbage), w.clients);
    if w.s.children[i].Reply? && !w.clients[w.s.children[i].conn].Left? {
      ReplyIsService(cfg, w, i, garbage);
      var c := w.s.children[i].conn;
      var x := Sessions(u)[c];
      assert SessionStep(Sessions(w)[c], x);
      assert Sessions(u) == Sessions(w)[c := x];
    } else {
      forall c | 0 <= c < |w.clients| ensures View(u.s.conns[c], w.clients[c]) == View(w.s.conns[c], w.clients[c]) {
        ChildSilent(w, i, garbage, c);
      }
      assert Sessions(u) == Sessions(w);
    }
  }

  /** No step of a child but its reply shows on a connection whose client is there. */
  lemma ChildSilent(w: World, i: nat, garbage: seq<byte>, c: nat)
    requires |w.clients| == |w.s.conns| && c < |w.clients|
    requires i < |w.s.children| && |garbage| == 4 && ChildEnabled(w.s, i)
    requires w.s.children[i].Reply? ==> w.clients[w.s.children[i].conn].Left?
    ensures var t := ApplyChild(w.s, i, garbage);
            |t.conns| == |w.s.conns| && View(t.conns[c], w.clients[c]) == View(w.s.conns[c], w.clients[c])
  {
  }

  lemma ClientRefines(cfg: Config, w: World, m: Move)
    requires WorldInv(cfg, w) && MoveEnabled(cfg, w, m) && !m.Server?
    ensures |Do(cfg, w, m).clients| == |Do(cfg, w, m).s.conns|
    ensures AtomicStep(Sessions(w), Sessions(Do(cfg, w, m)))
  {
    hide Fed, Consistent, Owned;
    var u, c := Do(cfg, w, m), m.c;
    assert ConnOk(w.s.children, w.s.socket, c, w.s.conns[c], w.clients[c]);
    assert ConnOk(u.s.children, u.s.socket, c, u.s.conns[c], u.clients[c]) by { ClientMoveKeepsConn(cfg, w, m); }
    var x := Sessions(u)[c];
    assert Sessions(u) == Sessions(w)[c := x];
    ClientSessionStep(w, m, u);
  }

  lemma ClientSessionStep(w: World, m: Move, u: World)
    requires !m.Server? && m.c < |w.clients| == |w.s.conns| && |u.clients| == |u.s.conns| == |w.clients|
    requires ConnOk(w.s.children, w.s.socket, m.c, w.s.conns[m.c], w.clients[m.c])
    requires ConnOk(w.s.children, w.s.socket, m.c, u.s.conns[m.c], u.clients[m.c])
    requires match m
             case Ask(c, _, _) => w.clients[c].Thinking? && u.clients[c].Asking?
                                  && u.s.conns[c].outb == w.s.conns[c].outb
             case More(c, _) => w.clients[c].Asking? && w.clients[c].rest != [] && u.clients[c].Asking?
                                && u.clients[c].n == w.clients[c].n && u.s.conns[c].outb == w.s.conns[c].outb
             case Take(c) => w.clients[c].Asking? && |w.s.conns[c].outb| >= 4 && u.clients[c].Thinking?
             case Leave(c) => w.clients[c].Thinking? && u.clients[c].Left?
             case Server(_) => false
    ensures SessionStep(View(w.s.conns[m.c], w.clients[m.c]), View(u.s.conns[m.c], u.clients[m.c]))
  {
    var c := m.c;
    assert forall i :: 0 <= i < |w.s.children| && Serving(w.s.children[i], c) && !w.clients[c].Left? ==>
        Phase(w.s.children[i], w.s.conns[c], w.clients[c]);
  }

  lemma ServerRefines(cfg: Config, w: World, step: Step)
    requires WorldInv(cfg, w) && ServerStep(step) && Enabled(cfg, w.s, step)
    requires |Do(cfg, w, Server(step)).clients| == |Do(cfg, w, Server(step)).s.conns|
    ensures AtomicStep(Sessions(w), Sessions(Do(cfg, w, Server(step))))
  {
    hide ConnOk, Inv, Fed;
    var u := Do(cfg, w, Server(step));
    match step
    case Child(i, garbage) => ChildRefines(cfg, w, i, garbage);
    case Accept(fd) => assert Sessions(u) == Sessions(w) + [Idle];
    case Poll(_, _) => assert u.s.conns == w.s.conns;
    case Parent => assert u.s.conns == w.s.conns;
    case _ =>
  }

  /** Every move of parent, child or client is one step of the atomic server, or none. */
  lemma MoveRefines(cfg: Config, w: World, m: Move)
    requires WorldInv(cfg, w) && MoveEnabled(cfg, w, m)
    ensures WorldInv(cfg, Do(cfg, w, m))
    ensures AtomicStep(Sessions(w), Sessions(Do(cfg, w, m)))
  {
    MoveKeepsWorld(cfg, w, m);
    if m.Server? {
      ServerRefines(cfg, w, m.step);
    } else {
      ClientRefines(cfg, w, m);
    }
  }

  /* ---- whole runs ---- */

  predicate Runs(cfg: Config, w: World, moves: seq<Move>)
    decreases |moves|
  {
    moves == [] || (MoveEnabled(cfg, w, moves[0]) && Runs(cfg, Do(cfg, w, moves[0]), moves[1..]))
  }

  /** The worlds a run goes through. */
  function Trail(cfg: Config, w: World, moves: seq<Move>): (r: seq<World>)
    requires Runs(cfg, w, moves)
    ensures |r| == |moves| + 1 && r[0] == w
    decreases |moves|
  {
    if moves == [] then [w] else [w] + Trail(cfg, Do(cfg, w, moves[0]), moves[1..])
  }

  function Start(cfg: Config): World {
    World(Init(cfg), [])
  }

  ghost predicate Sound(cfg: Config, trail: seq<World>) {
    forall i :: 0 <= i < |trail| ==> WorldInv(cfg, trail[i])
  }

  /** Seen through its sessions, the sequence of worlds is a run of the atomic server. */
  ghost predicate AtomicRun(trail: seq<World>) {
    && (forall i :: 0 <= i < |trail| ==> |trail[i].clients| == |trail[i].s.conns|)
    && (forall i :: 0 <= i < |trail| - 1 ==> AtomicStep(Sessions(trail[i]), Sessions(trail[i + 1])))
  }

  lemma ExtendRun(cfg: Config, w: World, trail: seq<World>)
    requires WorldInv(cfg, w) && Sound(cfg, trail) && AtomicRun(trail) && trail != []
    requires AtomicStep(Sessions(w), Sessions(trail[0]))
    ensures Sound(cfg, [w] + trail) && AtomicRun([w] + trail)
  {
    var all := [w] + trail;
    forall i | 0 <= i < |all| ensures WorldInv(cfg, all[i]) {
    }
    forall i | 0 <= i < |all| - 1 ensures AtomicStep(Sessions(all[i]), Sessions(all[i + 1])) {
      if i > 0 {
        assert AtomicStep(Sessions(trail[i - 1]), Sessions(trail[i - 1 + 1]));
      }
    }
  }

  lemma {:induction false} TrailRefines(cfg: Config, w: World, moves: seq<Move>)
    requires WorldInv(cfg, w) && Runs(cfg, w, moves)
    ensures Sound(cfg, Trail(cfg, w, moves)) && AtomicRun(Trail(cfg, w, moves))
    decreases |moves|
  {
    if moves != [] {
      MoveRefines(cfg, w, moves[0]);
      var u := Do(cfg, w, moves[0]);
      TrailRefines(cfg, u, moves[1..]);
      ExtendRun(cfg, w, Trail(cfg, u, moves[1..]));
    }
  }

  lemma StartSound(cfg: Config)
    requires cfg.Valid()
    ensures WorldInv(cfg, Start(cfg))
  {
    InitHolds(cfg);
  }

  /** On a connection whose client is there lies nothing, or the one reply it asked for. */
  lemma NoSurplus(cfg: Config, w: World, c: nat)
    requires WorldInv(cfg, w) && c < |w.clients|
    ensures c < |w.s.conns| && View(w.s.conns[c], w.clients[c]) != Surplus
  {
    hide Inv, Fed;
    var s := w.s;
    assert ConnOk(s.children, s.socket, c, s.conns[c], w.clients[c]);
    if i :| 0 <= i < |s.children| && Serving(s.children[i], c) {
      ServingPhase(s.children, s.socket, i, c, s.conns[c], w.clients[c]);
    }
  }

  /**
   Every run of the process server with closed-loop clients, seen through its sessions, is a run of the atomic
   server; so no request has a second reply, and nobody who did not ask has any.
   */
  lemma RefinesAtomicServer(cfg: Config, moves: seq<Move>)
    requires cfg.Valid() && Runs(cfg, Start(cfg), moves)
    ensures AtomicRun(Trail(cfg, Start(cfg), moves))
    ensures Sessions(Trail(cfg, Start(cfg), moves)[0]) == []
    ensures forall w, c :: w in Trail(cfg, Start(cfg), moves) && 0 <= c < |w.clients| == |w.s.conns| ==>
              Sessions(w)[c] != Surplus
  {
    StartSound(cfg);
    TrailRefines(cfg, Start(cfg), moves);
    forall w, c | w in Trail(cfg, Start(cfg), moves) && 0 <= c < |w.clients| == |w.s.conns|
      ensures Sessions(w)[c] != Surplus
    {
      NoSurplus(cfg, w, c);
    }
  }

  /** No second dispatch: the parent never has a connection in hand for a child while another still serves it. */
  lemma NoSecondDispatch(cfg: Config, moves: seq<Move>, k: nat)
    requires cfg.Valid() && Runs(cfg, Start(cfg), moves) && k <= |moves|
    requires var s := Trail(cfg, Start(cfg), moves)[k].s; s.pc.WaitingWrite? || s.pc.Sending?
    ensures var w := Trail(cfg, Start(cfg), moves)[k];
            && |w.clients| == |w.s.conns| && w.s.pc.slot < |w.s.slots|
            && var fd := w.s.slots[w.s.pc.slot].fd;
            && fd in w.s.open && w.s.open[fd] < |w.clients|
            && var c := w.s.open[fd];
               !w.clients[c].Left? ==>
                 && Sessions(w)[c].Asked?
                 && forall i :: 0 <= i < |w.s.children| ==> !Serving(w.s.children[i], c)
  {
    hide Fed, ConnOk, Consistent, Owned;
    StartSound(cfg);
    TrailRefines(cfg, Start(cfg), moves);
    var w := Trail(cfg, Start(cfg), moves)[k];
    assert WorldInv(cfg, w);
    DispatchIsFresh(cfg, w);
  }

  /** The parent never closes the connection of a client that has not left. */
  lemma NoClientDropped(cfg: Config, moves: seq<Move>, k: nat)
    requires cfg.Valid() && Runs(cfg, Start(cfg), moves) && k <= |moves|
    requires var s := Trail(cfg, Start(cfg), moves)[k].s;
             s.pc.Scanning? && s.pc.slot < |s.slots| && Gone(s.slots[s.pc.slot].revents)
    ensures var w := Trail(cfg, Start(cfg), moves)[k];
            var fd := w.s.slots[w.s.pc.slot].fd;
            fd in w.s.open && w.s.open[fd] < |w.clients| && w.clients[w.s.open[fd]].Left?
  {
    StartSound(cfg);
    TrailRefines(cfg, Start(cfg), moves);
    var w := Trail(cfg, Start(cfg), moves)[k];
    assert WorldInv(cfg, w);
    var slot := w.s.slots[w.s.pc.slot];
    assert SlotFed(slot, w.s.open, w.s.conns);
    var c := w.s.open[slot.fd];
    assert ConnOk(w.s.children, w.s.socket, c, w.s.conns[c], w.clients[c]);
  }
}
