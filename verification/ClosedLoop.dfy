/**
 Clients that keep to the protocol: send one framed request, wait for the reply, take it, then ask again
 or leave. With them the process server is indistinguishable from one that answers each whole request
 in a single step. The first fragment of a request is taken to carry its whole header; module ChunkFraming
 proves that this is exactly what the children's header read needs.
 */
module ClosedLoop {
  import opened Bytes
  import opened Slots
  import opened Protocol
  import opened Invariant
  import Framing

  datatype Client =
    | Thinking
    | Asking(n: uint32, rest: seq<byte>)  // a request of n payload bytes is out; `rest` has not arrived yet
    | Left

  datatype World = World(s: State, clients: seq<Client>)

  datatype Move =
    | Server(step: Step)
    | Ask(c: nat, payload: seq<byte>, first: nat)
    | More(c: nat, k: nat)
    | Take(c: nat)
    | Leave(c: nat)

  predicate ServerStep(step: Step) {
    step.Poll? || step.Accept? || step.Parent? || step.Child?
  }

  predicate MoveEnabled(cfg: Config, w: World, m: Move) {
    match m
    case Server(step) => ServerStep(step) && Enabled(cfg, w.s, step)
    case Ask(c, payload, first) =>
      && c < |w.clients| && c < |w.s.conns| && !w.s.conns[c].eof && w.clients[c].Thinking?
      && |payload| < TWO_32 && 4 <= first <= 4 + |payload|
    case More(c, k) =>
      && c < |w.clients| && c < |w.s.conns| && !w.s.conns[c].eof && w.clients[c].Asking?
      && 0 < k <= |w.clients[c].rest|
    case Take(c) =>
      && c < |w.clients| && c < |w.s.conns| && w.clients[c].Asking? && w.clients[c].rest == []
      && |w.s.conns[c].outb| >= 4
    case Leave(c) => c < |w.clients| && c < |w.s.conns| && w.clients[c].Thinking?
  }

  /** Every move of the world is a step of the process server, or of a client that Protocol allows. */
  function StepOf(w: World, m: Move): Step
    requires m.More? ==> m.c < |w.clients| && w.clients[m.c].Asking? && m.k <= |w.clients[m.c].rest|
    requires m.Ask? ==> |m.payload| < TWO_32 && m.first <= 4 + |m.payload|
  {
    match m
    case Server(step) => step
    case Ask(c, payload, first) => Deliver(c, Framing.Frame(payload)[..first])
    case More(c, k) => Deliver(c, w.clients[c].rest[..k])
    case Take(c) => Collect(c, 4)
    case Leave(c) => HangUp(c)
  }

  function ClientsAfter(w: World, m: Move): seq<Client>
    requires m.Server? || m.c < |w.clients|
    requires m.More? ==> w.clients[m.c].Asking? && m.k <= |w.clients[m.c].rest|
    requires m.Ask? ==> |m.payload| < TWO_32 && m.first <= 4 + |m.payload|
  {
    match m
    case Server(step) => if step.Accept? then w.clients + [Thinking] else w.clients
    case Ask(c, payload, first) => w.clients[c := Asking(|payload|, Framing.Frame(payload)[first..])]
    case More(c, k) => w.clients[c := w.clients[c].(rest := w.clients[c].rest[k..])]
    case Take(c) => w.clients[c := Thinking]
    case Leave(c) => w.clients[c := Left]
  }

  function Do(cfg: Config, w: World, m: Move): World
    requires MoveEnabled(cfg, w, m)
  {
    World(Apply(cfg, w.s, StepOf(w, m)), ClientsAfter(w, m))
  }

  /* ---- the atomic server ---- */

  datatype Session =
    | Idle
    | Asked(n: uint32, whole: bool)   // `whole`: all of the request has arrived
    | Answered(count: uint32)
    | Over
    | Surplus                         // octets that nobody asked for: no step leads here

  /** One step of the atomic server and its clients on one session. */
  predicate SessionStep(a: Session, b: Session) {
    || (a.Idle? && (b.Asked? || b.Over?))
    || (a.Asked? && !a.whole && b.Asked? && b.n == a.n)
    || (a.Asked? && a.whole && b == Answered(a.n))      // a whole request is answered at once, with its length
    || (a.Answered? && b.Idle?)
  }

  /** The sessions change by one step of one session, by one new session, or not at all. */
  ghost predicate AtomicStep(a: seq<Session>, b: seq<Session>) {
    || a == b
    || b == a + [Idle]
    || exists c: nat, x: Session :: c < |a| && SessionStep(a[c], x) && b == a[c := x]
  }

  function View(conn: Conn, client: Client): Session {
    match client
    case Thinking => if conn.outb == [] then Idle else Surplus
    case Left => Over
    case Asking(n, rest) =>
      if conn.outb == [] then Asked(n, rest == [])
      else if |conn.outb| == 4 then Answered(FromBe32(conn.outb))
      else Surplus
  }

  function Sessions(w: World): (r: seq<Session>)
    requires |w.clients| == |w.s.conns|
    ensures |r| == |w.clients|
  {
    seq(|w.clients|, c requires 0 <= c < |w.clients| => View(w.s.conns[c], w.clients[c]))
  }

  /* ---- what holds of each connection ---- */

  /** The child is between taking the message and having sent the reply. */
  predicate Serving(ch: ChildPc, c: nat) {
    Busy(ch) && !ch.CloseFd? && ch.conn == c
  }

  predicate AtRest(conn: Conn, client: Client) {
    client.Thinking? && conn.inb == [] && conn.outb == []
  }

  /** A request of which nothing has been read; its header is here. */
  predicate Waiting(conn: Conn, client: Client) {
    && client.Asking? && conn.outb == []
    && |conn.inb| >= 4 && FromBe32(conn.inb[..4]) == client.n
    && |conn.inb| + |client.rest| == 4 + client.n as int
  }

  predicate Replied(conn: Conn, client: Client) {
    client.Asking? && client.rest == [] && conn.inb == [] && conn.outb == Be32(client.n)
  }

  /** Where a child stands with its client's request: read so far, here, and still to come make up n. */
  predicate Phase(ch: ChildPc, conn: Conn, client: Client) {
    match ch
    case PostWrite(_, _) => Waiting(conn, client)
    case Header(_, _) => Waiting(conn, client)
    case Receive(_, _, toRead, got, last) =>
      && client.Asking? && conn.outb == [] && toRead == client.n && last != 0
      && got as int + |conn.inb| + |client.rest| == client.n as int
    case WaitPipe(_, _, got) => Read(got, conn, client)
    case WritePipe(_, _, got) => Read(got, conn, client)
    case WaitLog(_, _, got) => Read(got, conn, client)
    case Log(_, _, got) => Read(got, conn, client)
    case Reply(_, _, got) => Read(got, conn, client)
    case _ => true
  }

  /** The request has been read whole and counted right, and not answered yet. */
  predicate Read(got: uint32, conn: Conn, client: Client) {
    client.Asking? && client.rest == [] && conn.inb == [] && conn.outb == [] && got == client.n
  }

  predicate Alone(children: seq<ChildPc>, socket: seq<Message>, c: nat) {
    && (forall i, j :: 0 <= i < j < |children| && Serving(children[i], c) ==> !Serving(children[j], c))
    && (forall i, k :: 0 <= i < |children| && 0 <= k < |socket| && Serving(children[i], c) ==> socket[k].conn != c)
  }

  ghost predicate ConnOk(children: seq<ChildPc>, socket: seq<Message>, c: nat, conn: Conn, client: Client) {
    && (client.Left? <==> conn.eof)
    && (!client.Left? ==>
          && (forall i :: 0 <= i < |children| && Serving(children[i], c) ==> Phase(children[i], conn, client))
          && (forall k :: 0 <= k < |socket| && socket[k].conn == c ==> Waiting(conn, client))
          && Alone(children, socket, c)
          && (AtRest(conn, client) || Waiting(conn, client) || Replied(conn, client)
              || exists i :: 0 <= i < |children| && Serving(children[i], c)))
  }

  /** From which slot on the sweep has yet to act on what poll reported. */
  function Pending(pc: ParentPc): int {
    match pc
    case Scanning(i) => i
    case WaitingWrite(i) => i
    case Sending(i) => i
    case PostingRead(i) => i + 1
    case Negating(i) => i + 1
    case _ => -1
  }

  predicate SlotFed(slot: PollFd, open: map<int, nat>, conns: seq<Conn>) {
    && (JustIn(slot.revents) || Gone(slot.revents) ==>
          slot.fd > 0 && slot.fd in open && open[slot.fd] < |conns|)
    && (JustIn(slot.revents) ==> conns[open[slot.fd]].Readable())
    && (Gone(slot.revents) ==> conns[open[slot.fd]].eof)
  }

  /** A report that the sweep has not acted on is still true. */
  predicate Fed(s: State) {
    Pending(s.pc) >= 0 ==> forall j :: Pending(s.pc) <= j < |s.slots| ==> SlotFed(s.slots[j], s.open, s.conns)
  }

  ghost predicate WorldInv(cfg: Config, w: World) {
    && Inv(cfg, w.s)
    && |w.clients| == |w.s.conns|
    && Fed(w.s)
    && forall c :: 0 <= c < |w.clients| ==> ConnOk(w.s.children, w.s.socket, c, w.s.conns[c], w.clients[c])
  }
}
