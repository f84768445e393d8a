/**
 The process server as a transition system: one parent in its poll loop, `workers` child
 processes, the kernel objects they share, and clients that may do anything at any time.

 A connection is known by its index in `conns`, which is never reused; the parent's descriptor
 numbers are, and `open` is the kernel's table from the one to the other. A step is a label;
 `Enabled` says when the process or client named by the label can take it and `Apply` what it does.
 Every atomic action on something shared is one step; work on a process's own memory is
 folded into the step before or after it.
 */
module Protocol {
  import opened Bytes
  import opened Slots

  /** NUM_CHILD_PROCESSES and MAX_CONNECTIONS, any positive numbers. */
  datatype Config = Config(workers: nat, capacity: nat) {
    predicate Valid() {
      workers > 0 && capacity > 0
    }
  }

  /** What crosses the domain socket: the parent's fd number in the data, the file description beside it. */
  datatype Message = Message(fd: int, conn: nat)

  /** What crosses the completion pipe is the number alone; `conn` records whose completion it is. */
  datatype Note = Note(fd: int, conn: nat)

  /** One connection as the kernel sees it: bytes waiting for the server, whether the peer is gone, bytes sent back. */
  datatype Conn = Conn(inb: seq<byte>, eof: bool, outb: seq<byte>) {
    predicate Readable() {
      inb != [] || eof
    }
  }

  const FRESH := Conn([], false, [])

  datatype ParentPc =
    | AtPoll
    | Accepting
    | ReadingPipe
    | PostingPipe(fd: int, conn: nat)  // `conn`, as in Note, records whose completion was read
    | Reenabling(fd: int, conn: nat)
    | Scanning(slot: nat)      // about to look at the revents of this slot
    | WaitingWrite(slot: nat)  // in p_send_to_child, before sem_wait on domain WRITE
    | Sending(slot: nat)
    | PostingRead(slot: nat)
    | Negating(slot: nat)

  datatype ChildPc =
    | WaitRead
    | RecvMsg
    | PostWrite(fd: int, conn: nat)
    | Header(fd: int, conn: nat)
    | Receive(fd: int, conn: nat, toRead: uint32, got: uint32, last: nat)
    | WaitPipe(fd: int, conn: nat, got: uint32)
    | WritePipe(fd: int, conn: nat, got: uint32)
    | WaitLog(fd: int, conn: nat, got: uint32)
    | Log(fd: int, conn: nat, got: uint32)
    | Reply(fd: int, conn: nat, got: uint32)
    | CloseFd(fd: int, conn: nat)

  datatype State = State(
    slots: seq<PollFd>,
    num: int,
    listening: bool,
    pc: ParentPc,
    children: seq<ChildPc>,
    open: map<int, nat>,
    conns: seq<Conn>,
    domWrite: nat,
    domRead: nat,
    pipeSem: nat,
    logSem: nat,
    socket: seq<Message>,
    pipe: seq<Note>)

  datatype Step =
    | Poll(listenIn: bool, revents: seq<Revents>)
    | Accept(fd: int)
    | Parent                                // the parent's next action where it has only one
    | Child(i: nat, garbage: seq<byte>)     // garbage: what an unset `bytes_to_read` held
    | Deliver(c: nat, bytes: seq<byte>)     // client bytes reach the server's kernel
    | HangUp(c: nat)
    | Collect(c: nat, count: nat)           // the client takes reply bytes

  function Init(cfg: Config): State {
    State(
      seq(cfg.capacity, _ => EMPTY), 0, true, AtPoll,
      seq(cfg.workers, _ => WaitRead),
      map[], [], 1, 0, 1, 1, [], [])
  }

  /* ---- the parent ---- */

  /** What poll may report for one slot: nothing on a negative or zero fd, POLLIN only on request and when readable. */
  predicate PollReports(s: State, slot: PollFd, r: Revents) {
    if slot.fd <= 0 || slot.fd !in s.open || s.open[slot.fd] >= |s.conns| then r == QUIET
    else
      var c := s.conns[s.open[slot.fd]];
      && (r.pollin ==> slot.events && c.Readable())
      && (r.hup || r.err ==> c.eof)
  }

  predicate PollEnabled(cfg: Config, s: State, listenIn: bool, revents: seq<Revents>) {
    && s.pc.AtPoll?
    && |revents| == |s.slots| == cfg.capacity
    && (listenIn ==> s.listening)
    && (forall i :: 0 <= i < |revents| ==> PollReports(s, s.slots[i], revents[i]))
    && (listenIn || s.pipe != [] || exists i :: 0 <= i < |revents| && revents[i] != QUIET)
  }

  /** The three-way branch of the loop body: listen socket, then pipe, then the client sweep. */
  function ApplyPoll(s: State, listenIn: bool, revents: seq<Revents>): State
    requires |s.slots| == |revents|
  {
    s.(slots := Marked(s.slots, revents),
       pc := if listenIn then Accepting else if s.pipe != [] then ReadingPipe else Scanning(0))
  }

  /** accept hands out a positive descriptor that is not open in the parent; old numbers may come back. */
  predicate AcceptEnabled(s: State, fd: int) {
    s.pc.Accepting? && fd > 0 && fd !in s.open && FreeIndex(s.slots) < |s.slots|
  }

  function ApplyAccept(cfg: Config, s: State, fd: int): State
    requires AcceptEnabled(s, fd)
  {
    s.(slots := Occupied(s.slots, fd),
       open := s.open[fd := |s.conns|],
       conns := s.conns + [FRESH],
       num := s.num + 1,
       listening := if s.num + 1 >= cfg.capacity then false else s.listening,
       pc := AtPoll)
  }

  predicate ParentEnabled(cfg: Config, s: State) {
    match s.pc
    case AtPoll => false      // see Poll
    case Accepting => false   // see Accept
    case ReadingPipe => s.pipe != []
    case PostingPipe(_, _) => true
    case Reenabling(_, _) => true
    case Scanning(i) => i <= |s.slots|
    case WaitingWrite(i) => i < |s.slots| && s.domWrite > 0
    case Sending(i) => i < |s.slots| && s.slots[i].fd in s.open
    case PostingRead(i) => i < |s.slots|
    case Negating(i) => i < |s.slots|
  }

  /** One turn of the sweep at slot i, up to the point where it must wait for the domain socket. */
  function ApplyScan(cfg: Config, s: State, i: nat): State
    requires i <= |s.slots|
  {
    if i == |s.slots| then s.(pc := AtPoll)
    else if JustIn(s.slots[i].revents) then s.(pc := WaitingWrite(i))
    else if Gone(s.slots[i].revents) then
      s.(slots := Cleared(s.slots, i),
         open := s.open - {s.slots[i].fd},
         num := s.num - 1,
         listening := s.listening || s.num - 1 < cfg.capacity,
         pc := Scanning(i + 1))
    else s.(slots := Quieted(s.slots, i), pc := Scanning(i + 1))
  }

  function ApplyParent(cfg: Config, s: State): State
    requires ParentEnabled(cfg, s)
  {
    match s.pc
    case ReadingPipe => s.(pipe := s.pipe[1..], pc := PostingPipe(s.pipe[0].fd, s.pipe[0].conn))
    case PostingPipe(fd, c) => s.(pipeSem := s.pipeSem + 1, pc := Reenabling(fd, c))
    case Reenabling(fd, _) => s.(slots := Reenabled(s.slots, fd), pc := AtPoll)
    case Scanning(i) => ApplyScan(cfg, s, i)
    case WaitingWrite(i) => s.(domWrite := s.domWrite - 1, pc := Sending(i))
    case Sending(i) =>
      s.(socket := s.socket + [Message(s.slots[i].fd, s.open[s.slots[i].fd])], pc := PostingRead(i))
    case PostingRead(i) => s.(domRead := s.domRead + 1, pc := Negating(i))
    case Negating(i) => s.(slots := Negated(s.slots, i), pc := Scanning(i + 1))
  }

  /* ---- a child ---- */

  function Min(a: nat, b: nat): nat {
    if a <= b then a else b
  }

  predicate ChildEnabled(s: State, i: nat)
    requires i < |s.children|
  {
    match s.children[i]
    case WaitRead => s.domRead > 0
    case RecvMsg => s.socket != []
    case PostWrite(_, _) => true
    case Header(_, c) => c < |s.conns| && s.conns[c].Readable()
    case Receive(_, c, toRead, got, last) =>
      c < |s.conns| && (got < toRead && last != 0 ==> s.conns[c].Readable())
    case WaitPipe(_, _, _) => s.pipeSem > 0
    case WritePipe(_, _, _) => true
    case WaitLog(_, _, _) => s.logSem > 0
    case Log(_, _, _) => true
    case Reply(_, c, _) => c < |s.conns|
    case CloseFd(_, _) => true
  }

  /** The child can go on only when its client sends more bytes or leaves. */
  predicate AwaitsClient(s: State, i: nat)
    requires i < |s.children|
  {
    match s.children[i]
    case Header(_, c) => c < |s.conns| && !s.conns[c].Readable()
    case Receive(_, c, toRead, got, last) =>
      c < |s.conns| && got < toRead && last != 0 && !s.conns[c].Readable()
    case _ => false
  }

  function ApplyChild(s: State, i: nat, garbage: seq<byte>): State
    requires i < |s.children| && ChildEnabled(s, i) && |garbage| == 4
  {
    match s.children[i]
    case WaitRead => s.(domRead := s.domRead - 1, children := s.children[i := RecvMsg])
    case RecvMsg =>
      var m := s.socket[0];
      s.(socket := s.socket[1..], children := s.children[i := PostWrite(m.fd, m.conn)])
    case PostWrite(fd, c) => s.(domWrite := s.domWrite + 1, children := s.children[i := Header(fd, c)])
    case Header(fd, c) =>
      var conn := s.conns[c];
      var h := Min(4, |conn.inb|);
      var toRead := FromBe32(conn.inb[..h] + garbage[h..]);
      s.(conns := s.conns[c := conn.(inb := conn.inb[h..])],
         children := s.children[i := Receive(fd, c, toRead, 0, 1)])
    case Receive(fd, c, toRead, got, last) =>
      if got < toRead && last != 0 then
        var conn := s.conns[c];
        var k := Min(CHUNK, |conn.inb|);
        s.(conns := s.conns[c := conn.(inb := conn.inb[k..])],
           children := s.children[i := Receive(fd, c, toRead, (got + k) % TWO_32, k)])
      else s.(children := s.children[i := WaitPipe(fd, c, got)])
    case WaitPipe(fd, c, got) => s.(pipeSem := s.pipeSem - 1, children := s.children[i := WritePipe(fd, c, got)])
    case WritePipe(fd, c, got) =>
      s.(pipe := s.pipe + [Note(fd, c)], children := s.children[i := WaitLog(fd, c, got)])
    case WaitLog(fd, c, got) => s.(logSem := s.logSem - 1, children := s.children[i := Log(fd, c, got)])
    case Log(fd, c, got) => s.(logSem := s.logSem + 1, children := s.children[i := Reply(fd, c, got)])
    case Reply(fd, c, got) =>
      var conn := s.conns[c];
      s.(conns := s.conns[c := conn.(outb := conn.outb + Be32(got))],
         children := s.children[i := CloseFd(fd, c)])
    case CloseFd(_, _) => s.(children := s.children[i := WaitRead])
  }

  /* ---- all of it ---- */

  predicate Enabled(cfg: Config, s: State, step: Step) {
    match step
    case Poll(listenIn, revents) => PollEnabled(cfg, s, listenIn, revents)
    case Accept(fd) => AcceptEnabled(s, fd)
    case Parent => ParentEnabled(cfg, s)
    case Child(i, garbage) => i < |s.children| && |garbage| == 4 && ChildEnabled(s, i)
    case Deliver(c, _) => c < |s.conns| && !s.conns[c].eof
    case HangUp(c) => c < |s.conns|
    case Collect(c, count) => c < |s.conns| && count <= |s.conns[c].outb|
  }

  function Apply(cfg: Config, s: State, step: Step): State
    requires Enabled(cfg, s, step)
  {
    match step
    case Poll(listenIn, revents) => ApplyPoll(s, listenIn, revents)
    case Accept(fd) => ApplyAccept(cfg, s, fd)
    case Parent => ApplyParent(cfg, s)
    case Child(i, garbage) => ApplyChild(s, i, garbage)
    case Deliver(c, bytes) => s.(conns := s.conns[c := s.conns[c].(inb := s.conns[c].inb + bytes)])
    case HangUp(c) => s.(conns := s.conns[c := s.conns[c].(eof := true)])
    case Collect(c, count) => s.(conns := s.conns[c := s.conns[c].(outb := s.conns[c].outb[count..])])
  }

  /** `steps`, taken one after the other from s, are all enabled and end in t. */
  predicate Leads(cfg: Config, s: State, steps: seq<Step>, t: State)
    decreases |steps|
  {
    if steps == [] then s == t
    else Enabled(cfg, s, steps[0]) && Leads(cfg, Apply(cfg, s, steps[0]), steps[1..], t)
  }

  ghost predicate Reachable(cfg: Config, t: State) {
    cfg.Valid() && exists steps :: Leads(cfg, Init(cfg), steps, t)
  }

  lemma {:induction false} LeadsOn(cfg: Config, s: State, xs: seq<Step>, t: State, ys: seq<Step>, u: State)
    requires Leads(cfg, s, xs, t) && Leads(cfg, t, ys, u)
    ensures Leads(cfg, s, xs + ys, u)
    decreases |xs|
  {
    if xs == [] {
      assert xs + ys == ys;
    } else {
      LeadsOn(cfg, Apply(cfg, s, xs[0]), xs[1..], t, ys, u);
      assert (xs + ys)[1..] == xs[1..] + ys;
    }
  }

  lemma ReachableOn(cfg: Config, t: State, ys: seq<Step>, u: State)
    requires Reachable(cfg, t) && Leads(cfg, t, ys, u)
    ensures Reachable(cfg, u)
  {
    var xs :| Leads(cfg, Init(cfg), xs, t);
    LeadsOn(cfg, Init(cfg), xs, t, ys, u);
  }
}
