/**
 What every step of the process server keeps. The heart is `Owned`: counting, for each descriptor
 number, who holds it outside the parent's table (children, domain socket, pipe, the parent's hand
 after a pipe read) gives exactly the table's disabled slots under that number, plus the one slot
 whose message is sent but whose sign is not flipped yet.
 */
module Invariant {
  import opened Counting
  import opened Slots
  import opened Protocol

  /* ---- who holds what ---- */

  /** From taking the message off the domain socket until the number is in the pipe. */
  predicate Holding(c: ChildPc) {
    c.PostWrite? || c.Header? || c.Receive? || c.WaitPipe? || c.WritePipe?
  }

  function HoldingMarks(cs: seq<ChildPc>): (r: seq<bool>)
    ensures |r| == |cs|
  {
    seq(|cs|, i requires 0 <= i < |cs| => Holding(cs[i]))
  }

  predicate Holds(c: ChildPc, f: int) {
    Holding(c) && c.fd == f
  }

  function ChildMarks(cs: seq<ChildPc>, f: int): (r: seq<bool>)
    ensures |r| == |cs|
  {
    seq(|cs|, i requires 0 <= i < |cs| => Holds(cs[i], f))
  }

  function ReadingMarks(cs: seq<ChildPc>): (r: seq<bool>)
    ensures |r| == |cs|
  {
    seq(|cs|, i requires 0 <= i < |cs| => cs[i].RecvMsg?)
  }

  function PostingMarks(cs: seq<ChildPc>): (r: seq<bool>)
    ensures |r| == |cs|
  {
    seq(|cs|, i requires 0 <= i < |cs| => cs[i].PostWrite?)
  }

  function NotifyMarks(cs: seq<ChildPc>): (r: seq<bool>)
    ensures |r| == |cs|
  {
    seq(|cs|, i requires 0 <= i < |cs| => cs[i].WritePipe?)
  }

  function LogMarks(cs: seq<ChildPc>): (r: seq<bool>)
    ensures |r| == |cs|
  {
    seq(|cs|, i requires 0 <= i < |cs| => cs[i].Log?)
  }

  function SocketMarks(q: seq<Message>, f: int): (r: seq<bool>)
    ensures |r| == |q|
  {
    seq(|q|, i requires 0 <= i < |q| => q[i].fd == f)
  }

  function PipeMarks(q: seq<Note>, f: int): (r: seq<bool>)
    ensures |r| == |q|
  {
    seq(|q|, i requires 0 <= i < |q| => q[i].fd == f)
  }

  /** The parent has read a number from the pipe and not re-enabled it yet. */
  predicate InHand(pc: ParentPc) {
    pc.PostingPipe? || pc.Reenabling?
  }

  predicate Hand(pc: ParentPc, f: int) {
    InHand(pc) && pc.fd == f
  }

  /** The slot whose message is in the socket while its fd is still positive; -1 when there is none. */
  function Window(pc: ParentPc): int {
    if pc.PostingRead? || pc.Negating? then pc.slot else -1
  }

  predicate Out(slots: seq<PollFd>, window: int, i: nat)
    requires i < |slots|
  {
    slots[i].fd < 0 || i == window
  }

  function OutMarks(slots: seq<PollFd>, window: int): (r: seq<bool>)
    ensures |r| == |slots|
  {
    seq(|slots|, i requires 0 <= i < |slots| => Out(slots, window, i))
  }

  function OutAs(slots: seq<PollFd>, window: int, f: int): (r: seq<bool>)
    ensures |r| == |slots|
  {
    seq(|slots|, i requires 0 <= i < |slots| => Out(slots, window, i) && Abs(slots[i].fd) == f)
  }

  /** How many holders number f has outside the table. */
  function Holders(children: seq<ChildPc>, socket: seq<Message>, pipe: seq<Note>, pc: ParentPc, f: int): nat {
    Count(ChildMarks(children, f)) + Count(SocketMarks(socket, f)) + Count(PipeMarks(pipe, f)) + Bit(Hand(pc, f))
  }

  /** How many numbers are held outside the table in all. */
  function Load(children: seq<ChildPc>, socket: seq<Message>, pipe: seq<Note>, pc: ParentPc): nat {
    Count(HoldingMarks(children)) + |socket| + |pipe| + Bit(InHand(pc))
  }

  /* ---- the invariant ---- */

  predicate SlotOf(pc: ParentPc, n: nat) {
    match pc
    case Scanning(i) => i <= n
    case WaitingWrite(i) => i < n
    case Sending(i) => i < n
    case PostingRead(i) => i < n
    case Negating(i) => i < n
    case _ => true
  }

  ghost predicate OpenOk(open: map<int, nat>, conns: nat) {
    && (forall fd :: fd in open ==> open[fd] < conns)
    && (forall fd, fd' :: fd in open && fd' in open && open[fd] == open[fd'] ==> fd == fd')
  }

  ghost predicate Table(s: State) {
    && Consistent(s.slots, s.num, s.listening, s.open.Keys)
    && OpenOk(s.open, |s.conns|)
  }

  /** One token for the domain socket: WRITE, READ, a message in between, and everyone inside the hand-off. */
  predicate DomainToken(s: State) {
    && s.domWrite + |s.socket| + Count(PostingMarks(s.children)) + Bit(s.pc.Sending?) == 1
    && |s.socket| == s.domRead + Count(ReadingMarks(s.children)) + Bit(s.pc.PostingRead?)
  }

  /** One token for the pipe: taken by the child before it writes, given back by the parent after it reads. */
  predicate PipeToken(s: State) {
    s.pipeSem + Count(NotifyMarks(s.children)) + |s.pipe| + Bit(s.pc.PostingPipe?) == 1
  }

  predicate LogToken(s: State) {
    s.logSem + Count(LogMarks(s.children)) == 1
  }

  predicate Tokens(s: State) {
    DomainToken(s) && PipeToken(s) && LogToken(s)
  }

  ghost predicate Owned(children: seq<ChildPc>, socket: seq<Message>, pipe: seq<Note>,
                        pc: ParentPc, slots: seq<PollFd>)
  {
    && Load(children, socket, pipe, pc) == Count(OutMarks(slots, Window(pc)))
    && forall f :: Holders(children, socket, pipe, pc, f) == Count(OutAs(slots, Window(pc), f))
  }

  predicate Names(open: map<int, nat>, fd: int, conn: nat) {
    fd in open && open[fd] == conn
  }

  /** Whoever holds a number holds the connection the parent knows under that number. */
  predicate Paired(children: seq<ChildPc>, socket: seq<Message>, pipe: seq<Note>, open: map<int, nat>) {
    && (forall k :: 0 <= k < |socket| ==> Names(open, socket[k].fd, socket[k].conn))
    && (forall k :: 0 <= k < |pipe| ==> Names(open, pipe[k].fd, pipe[k].conn))
    && (forall i :: 0 <= i < |children| && Holding(children[i]) ==> Names(open, children[i].fd, children[i].conn))
  }

  predicate HandPaired(pc: ParentPc, open: map<int, nat>) {
    InHand(pc) ==> Names(open, pc.fd, pc.conn)
  }

  predicate Busy(c: ChildPc) {
    !c.WaitRead? && !c.RecvMsg?
  }

  /** Even children past the pipe write name a connection that exists. */
  predicate Known(children: seq<ChildPc>, conns: nat) {
    forall i :: 0 <= i < |children| && Busy(children[i]) ==> children[i].conn < conns
  }

  /** What the parent's position says about the table. */
  predicate Position(pc: ParentPc, slots: seq<PollFd>, listening: bool, pipe: seq<Note>) {
    && SlotOf(pc, |slots|)
    && match pc
       case Accepting => listening
       case ReadingPipe => pipe != []
       case Scanning(i) => Asked(slots, i)
       case WaitingWrite(i) => Asked(slots, i) && JustIn(slots[i].revents)
       case Sending(i) => Asked(slots, i) && JustIn(slots[i].revents)
       case PostingRead(i) => Asked(slots, i + 1) && slots[i].fd > 0
       case Negating(i) => Asked(slots, i + 1) && slots[i].fd > 0
       case _ => true
  }

  ghost predicate Inv(cfg: Config, s: State) {
    && |s.slots| == cfg.capacity
    && |s.children| == cfg.workers
    && Table(s)
    && Tokens(s)
    && Owned(s.children, s.socket, s.pipe, s.pc, s.slots)
    && Paired(s.children, s.socket, s.pipe, s.open)
    && HandPaired(s.pc, s.open)
    && Known(s.children, |s.conns|)
    && Position(s.pc, s.slots, s.listening, s.pipe)
  }

  /* ---- bookkeeping ---- */

  /** One child's move changes every count over the children by that child's own mark. */
  lemma ChildUpdate(cs: seq<ChildPc>, i: nat, c: ChildPc)
    requires i < |cs|
    ensures Count(HoldingMarks(cs[i := c])) + Bit(Holding(cs[i])) == Count(HoldingMarks(cs)) + Bit(Holding(c))
    ensures Count(ReadingMarks(cs[i := c])) + Bit(cs[i].RecvMsg?) == Count(ReadingMarks(cs)) + Bit(c.RecvMsg?)
    ensures Count(PostingMarks(cs[i := c])) + Bit(cs[i].PostWrite?) == Count(PostingMarks(cs)) + Bit(c.PostWrite?)
    ensures Count(NotifyMarks(cs[i := c])) + Bit(cs[i].WritePipe?) == Count(NotifyMarks(cs)) + Bit(c.WritePipe?)
    ensures Count(LogMarks(cs[i := c])) + Bit(cs[i].Log?) == Count(LogMarks(cs)) + Bit(c.Log?)
  {
    assert HoldingMarks(cs[i := c]) == HoldingMarks(cs)[i := Holding(c)];
    assert ReadingMarks(cs[i := c]) == ReadingMarks(cs)[i := c.RecvMsg?];
    assert PostingMarks(cs[i := c]) == PostingMarks(cs)[i := c.PostWrite?];
    assert NotifyMarks(cs[i := c]) == NotifyMarks(cs)[i := c.WritePipe?];
    assert LogMarks(cs[i := c]) == LogMarks(cs)[i := c.Log?];
    CountUpdate(HoldingMarks(cs), i, Holding(c));
    CountUpdate(ReadingMarks(cs), i, c.RecvMsg?);
    CountUpdate(PostingMarks(cs), i, c.PostWrite?);
    CountUpdate(NotifyMarks(cs), i, c.WritePipe?);
    CountUpdate(LogMarks(cs), i, c.Log?);
  }

  lemma ChildUpdateAt(cs: seq<ChildPc>, i: nat, c: ChildPc, f: int)
    requires i < |cs|
    ensures Count(ChildMarks(cs[i := c], f)) + Bit(Holds(cs[i], f)) == Count(ChildMarks(cs, f)) + Bit(Holds(c, f))
  {
    assert ChildMarks(cs[i := c], f) == ChildMarks(cs, f)[i := Holds(c, f)];
    CountUpdate(ChildMarks(cs, f), i, Holds(c, f));
  }

  lemma SocketPushPop(q: seq<Message>, m: Message, f: int)
    ensures Count(SocketMarks(q + [m], f)) == Count(SocketMarks(q, f)) + Bit(m.fd == f)
    ensures q != [] ==> Count(SocketMarks(q, f)) == Count(SocketMarks(q[1..], f)) + Bit(q[0].fd == f)
  {
    assert SocketMarks(q + [m], f) == SocketMarks(q, f) + [m.fd == f];
    CountPush(SocketMarks(q, f), m.fd == f);
    if q != [] {
      CountPop(SocketMarks(q, f));
      assert SocketMarks(q, f)[1..] == SocketMarks(q[1..], f);
    }
  }

  lemma PipePushPop(q: seq<Note>, m: Note, f: int)
    ensures Count(PipeMarks(q + [m], f)) == Count(PipeMarks(q, f)) + Bit(m.fd == f)
    ensures q != [] ==> Count(PipeMarks(q, f)) == Count(PipeMarks(q[1..], f)) + Bit(q[0].fd == f)
  {
    assert PipeMarks(q + [m], f) == PipeMarks(q, f) + [m.fd == f];
    CountPush(PipeMarks(q, f), m.fd == f);
    if q != [] {
      CountPop(PipeMarks(q, f));
      assert PipeMarks(q, f)[1..] == PipeMarks(q[1..], f);
    }
  }

  predicate OutSlot(x: PollFd, window: bool) {
    x.fd < 0 || window
  }

  /** Changing slot i, or moving the window on or off it, changes the counts over the slots by slot i's mark. */
  lemma OutUpdate(slots: seq<PollFd>, w: int, i: nat, x: PollFd, w': int)
    requires i < |slots|
    requires w == w' || ((w == i || w == -1) && (w' == i || w' == -1))
    ensures Count(OutMarks(slots[i := x], w')) + Bit(OutSlot(slots[i], i == w))
         == Count(OutMarks(slots, w)) + Bit(OutSlot(x, i == w'))
  {
    assert OutMarks(slots[i := x], w') == OutMarks(slots, w)[i := OutSlot(x, i == w')];
    CountUpdate(OutMarks(slots, w), i, OutSlot(x, i == w'));
  }

  lemma OutUpdateAt(slots: seq<PollFd>, w: int, i: nat, x: PollFd, w': int, f: int)
    requires i < |slots|
    requires w == w' || ((w == i || w == -1) && (w' == i || w' == -1))
    ensures Count(OutAs(slots[i := x], w', f)) + Bit(OutSlot(slots[i], i == w) && Abs(slots[i].fd) == f)
         == Count(OutAs(slots, w, f)) + Bit(OutSlot(x, i == w') && Abs(x.fd) == f)
  {
    var mark := OutSlot(x, i == w') && Abs(x.fd) == f;
    assert OutAs(slots[i := x], w', f) == OutAs(slots, w, f)[i := mark];
    CountUpdate(OutAs(slots, w, f), i, mark);
  }

  /** In a table of distinct descriptors a number is out at most once. */
  lemma OutOnce(slots: seq<PollFd>, w: int, f: int)
    requires Distinct(slots)
    requires 0 <= w < |slots| ==> slots[w].fd != 0
    ensures Count(OutAs(slots, w, f)) <= 1
  {
    CountOnce(OutAs(slots, w, f));
  }

  /** The number of an enabled slot outside the window is not out. */
  lemma EnabledNotOut(slots: seq<PollFd>, w: int, i: nat)
    requires Distinct(slots)
    requires i < |slots| && slots[i].fd > 0 && i != w
    ensures Count(OutAs(slots, w, slots[i].fd)) == 0
  {
    CountNone(OutAs(slots, w, slots[i].fd));
  }

  /** A number that somebody holds belongs to a slot that is out. */
  lemma HeldNamesSlot(slots: seq<PollFd>, w: int, f: int) returns (i: nat)
    requires Count(OutAs(slots, w, f)) > 0
    ensures i < |slots| && Out(slots, w, i) && Abs(slots[i].fd) == f
  {
    CountNone(OutAs(slots, w, f));
    i :| 0 <= i < |slots| && OutAs(slots, w, f)[i];
  }

  lemma ChildCounts(children: seq<ChildPc>, i: nat)
    requires i < |children| && Holding(children[i])
    ensures Count(ChildMarks(children, children[i].fd)) >= 1
  {
    CountSome(ChildMarks(children, children[i].fd), i);
  }

  lemma SocketCounts(socket: seq<Message>, k: nat)
    requires k < |socket|
    ensures Count(SocketMarks(socket, socket[k].fd)) >= 1
  {
    CountSome(SocketMarks(socket, socket[k].fd), k);
  }

  lemma PipeCounts(pipe: seq<Note>, k: nat)
    requires k < |pipe|
    ensures Count(PipeMarks(pipe, pipe[k].fd)) >= 1
  {
    CountSome(PipeMarks(pipe, pipe[k].fd), k);
  }
}
