/**
 One whole turn of a child, from its wait for a connection to the close, with everybody else doing anything in
 between: what it does to semaphores, socket, pipe and connection, in which order, told by the effects alone;
 and what it counts is what the receive routine of module ChunkFraming counts on the same pieces.
 */
module ChildTurn {
  import opened Bytes
  import opened Protocol
  import opened Wire
  import opened ChunkFraming

  /* ---- what a step does ---- */

  datatype Deed =
    | TookRead
    | TookMessage(fd: int, conn: nat)
    | PostedWrite
    | ReadBytes(conn: nat, bytes: seq<byte>)
    | TookPipe
    | Notified(fd: int)
    | TookLog
    | PostedLog
    | Replied(conn: nat, octets: seq<byte>)

  /** What changed from s to t in what processes share. */
  function Shared(s: State, t: State): seq<Deed> {
    (if t.domRead < s.domRead then [TookRead] else [])
    + (if |t.socket| < |s.socket| then [TookMessage(s.socket[0].fd, s.socket[0].conn)] else [])
    + (if t.domWrite > s.domWrite then [PostedWrite] else [])
    + (if t.pipeSem < s.pipeSem then [TookPipe] else [])
    + (if |t.pipe| > |s.pipe| then [Notified(t.pipe[|s.pipe|].fd)] else [])
    + (if t.logSem < s.logSem then [TookLog] else [])
    + (if t.logSem > s.logSem then [PostedLog] else [])
  }

  /** What changed on connection c. */
  function OnConn(s: State, t: State, c: nat): seq<Deed>
    requires c < |s.conns| == |t.conns|
  {
    var a, b := s.conns[c], t.conns[c];
    (if |b.inb| < |a.inb| then [ReadBytes(c, a.inb[..|a.inb| - |b.inb|])] else [])
    + (if |b.outb| > |a.outb| then [Replied(c, b.outb[|a.outb|..])] else [])
  }

  function OnConns(s: State, t: State, k: nat): seq<Deed>
    requires k <= |s.conns| == |t.conns|
  {
    if k == 0 then [] else OnConns(s, t, k - 1) + OnConn(s, t, k - 1)
  }

  function Deeds(s: State, t: State): seq<Deed> {
    Shared(s, t) + (if |s.conns| == |t.conns| then OnConns(s, t, |s.conns|) else [])
  }

  /** All that child i does on the way. */
  function DeedsIn(cfg: Config, s: State, steps: seq<Step>, t: State, i: nat): seq<Deed>
    requires Leads(cfg, s, steps, t)
    decreases |steps|
  {
    if steps == [] then []
    else
      var u := Apply(cfg, s, steps[0]);
      (if steps[0].Child? && steps[0].i == i then Deeds(s, u) else []) + DeedsIn(cfg, u, steps[1..], t, i)
  }

  lemma {:induction false} OnlyConn(s: State, t: State, c: nat, k: nat)
    requires c < |s.conns| == |t.conns| && k <= |s.conns|
    requires forall d :: 0 <= d < |s.conns| && d != c ==> t.conns[d] == s.conns[d]
    ensures OnConns(s, t, k) == if c < k then OnConn(s, t, c) else []
  {
    hide OnConn;
    if k > 0 {
      OnlyConn(s, t, c, k - 1);
      if k - 1 != c {
        SameConn(s, t, k - 1);
      }
    }
  }

  lemma SameConn(s: State, t: State, c: nat)
    requires c < |s.conns| == |t.conns| && t.conns[c] == s.conns[c]
    ensures OnConn(s, t, c) == []
  {
  }

  lemma {:induction false} NoConn(s: State, t: State, k: nat)
    requires t.conns == s.conns && k <= |s.conns|
    ensures OnConns(s, t, k) == []
  {
    hide OnConn;
    if k > 0 {
      NoConn(s, t, k - 1);
      SameConn(s, t, k - 1);
    }
  }

  /* ---- what a child takes in ---- */

  /** The octets its header read returned, and the pieces its payload reads returned; only the last may be empty. */
  datatype Intake = Intake(header: seq<byte>, pieces: seq<seq<byte>>)

  function Reads(c: nat, pieces: seq<seq<byte>>): seq<Deed> {
    if pieces == [] then []
    else Reads(c, pieces[..|pieces| - 1])
         + (if pieces[|pieces| - 1] == [] then [] else [ReadBytes(c, pieces[|pieces| - 1])])
  }

  /** The 32-bit count of the bytes in the first k pieces. */
  function Counted(pieces: seq<seq<byte>>, k: nat): uint32
    requires k <= |pieces|
  {
    if k == 0 then 0 else (Counted(pieces, k - 1) + |pieces[k - 1]|) % TWO_32
  }

  /**
   Reading as the loop does: at most four octets of header, which say how much follows; then pieces of at most
   eight bytes, each read only while the count was short of that and no read had come back empty.
   */
  predicate InProgress(x: Intake, toRead: uint32) {
    && |x.header| <= 4
    && (|x.header| == 4 ==> Spell32(x.header, toRead))
    && (forall k :: 0 <= k < |x.pieces| ==> |x.pieces[k]| <= 8 && Counted(x.pieces, k) < toRead)
    && (forall k :: 0 <= k < |x.pieces| - 1 ==> x.pieces[k] != [])
  }

  /** As InProgress, and the loop has stopped: the count is reached, or the last read came back empty. */
  predicate Complete(x: Intake, toRead: uint32) {
    && InProgress(x, toRead)
    && (Counted(x.pieces, |x.pieces|) >= toRead || (x.pieces != [] && x.pieces[|x.pieces| - 1] == []))
  }

  function Taken(c: nat, x: Intake): seq<Deed> {
    (if x.header == [] then [] else [ReadBytes(c, x.header)]) + Reads(c, x.pieces)
  }

  function Opening(fd: int, c: nat): seq<Deed> {
    [TookRead, TookMessage(fd, c), PostedWrite]
  }

  /** What a child at this position has done in this turn. */
  ghost predicate Done(ch: ChildPc, ds: seq<Deed>, x: Intake, toRead: uint32) {
    match ch
    case WaitRead => ds == []
    case RecvMsg => ds == [TookRead]
    case PostWrite(fd, c) => ds == [TookRead, TookMessage(fd, c)]
    case Header(fd, c) => ds == Opening(fd, c)
    case Receive(fd, c, n, got, last) =>
      && ds == Opening(fd, c) + Taken(c, x) && n == toRead
      && InProgress(x, toRead) && got == Counted(x.pieces, |x.pieces|)
      && (last == 0 <==> x.pieces != [] && x.pieces[|x.pieces| - 1] == [])
    case WaitPipe(fd, c, got) => Closing(fd, c, got, ds, x, toRead, [])
    case WritePipe(fd, c, got) => Closing(fd, c, got, ds, x, toRead, [TookPipe])
    case WaitLog(fd, c, got) => Closing(fd, c, got, ds, x, toRead, [TookPipe, Notified(fd)])
    case Log(fd, c, got) => Closing(fd, c, got, ds, x, toRead, [TookPipe, Notified(fd), TookLog])
    case Reply(fd, c, got) => Closing(fd, c, got, ds, x, toRead, [TookPipe, Notified(fd), TookLog, PostedLog])
    case CloseFd(fd, c) => Turn(fd, c, ds, x, toRead)
  }

  predicate Closing(fd: int, c: nat, got: uint32, ds: seq<Deed>, x: Intake, toRead: uint32, since: seq<Deed>) {
    && Complete(x, toRead) && got == Counted(x.pieces, |x.pieces|)
    && ds == Opening(fd, c) + Taken(c, x) + since
  }

  /**
   A whole turn: READ and the message taken and WRITE posted; header and payload read; then, in this order, the
   pipe's semaphore taken and the parent's number written, the log's semaphore taken and given back, and the
   count sent in four octets on the connection that was read from.
   */
  ghost predicate Turn(fd: int, c: nat, ds: seq<Deed>, x: Intake, toRead: uint32) {
    && Complete(x, toRead)
    && exists octets :: Spell32(octets, Counted(x.pieces, |x.pieces|))
                     && ds == Opening(fd, c) + Taken(c, x)
                              + [TookPipe, Notified(fd), TookLog, PostedLog, Replied(c, octets)]
  }

  /* ---- one step of it ---- */

  /** Up to the header, and after the payload: everything but reading. */
  lemma PlainStep(s: State, i: nat, garbage: seq<byte>, ds: seq<Deed>, x: Intake, toRead: uint32)
    requires i < |s.children| && |garbage| == 4 && ChildEnabled(s, i)
    requires !s.children[i].Header? && !s.children[i].Receive? && !s.children[i].CloseFd? && !s.children[i].Reply?
    requires Done(s.children[i], ds, x, toRead)
    ensures var t := ApplyChild(s, i, garbage);
            i < |t.children| && Done(t.children[i], ds + Deeds(s, t), x, toRead)
  {
    hide Complete, Taken, OnConns;
    var t := ApplyChild(s, i, garbage);
    NoConn(s, t, |s.conns|);
  }

  lemma ReplyStep(s: State, i: nat, garbage: seq<byte>, ds: seq<Deed>, x: Intake, toRead: uint32)
    requires i < |s.children| && |garbage| == 4 && ChildEnabled(s, i)
    requires s.children[i].Reply? && Done(s.children[i], ds, x, toRead)
    ensures var t := ApplyChild(s, i, garbage);
            i < |t.children| && Done(t.children[i], ds + Deeds(s, t), x, toRead)
  {
    hide Complete, Taken, OnConns, Be32, Spell32;
    var t := ApplyChild(s, i, garbage);
    var c, got := s.children[i].conn, s.children[i].got;
    OnlyConn(s, t, c, |s.conns|);
    Octets(0, got);
    assert t.conns[c].outb[|s.conns[c].outb|..] == Be32(got);
    assert Deeds(s, t) == [Replied(c, Be32(got))];
  }

  /** The header read. */
  lemma HeaderStep(s: State, i: nat, garbage: seq<byte>, ds: seq<Deed>) returns (x: Intake, toRead: uint32)
    requires i < |s.children| && |garbage| == 4 && ChildEnabled(s, i)
    requires s.children[i].Header? && ds == Opening(s.children[i].fd, s.children[i].conn)
    ensures var t := ApplyChild(s, i, garbage);
            i < |t.children| && Done(t.children[i], ds + Deeds(s, t), x, toRead)
  {
    hide OnConns, FromBe32;
    var t := ApplyChild(s, i, garbage);
    var c := s.children[i].conn;
    var inb := s.conns[c].inb;
    var h := if |inb| < 4 then |inb| else 4;
    toRead := FromBe32(inb[..h] + garbage[h..]);
    x := Intake(inb[..h], []);
    OnlyConn(s, t, c, |s.conns|);
    if h == 4 {
      assert inb[..4] + garbage[4..] == inb[..4];
      Spelled(inb[..4]);
    }
    assert Deeds(s, t) == Taken(c, x);
  }

  lemma Spelled(bs: seq<byte>)
    requires |bs| == 4
    ensures Spell32(bs, FromBe32(bs))
  {
  }

  /** One more piece. */
  lemma OneMore(x: Intake, toRead: uint32, p: seq<byte>, c: nat)
    requires InProgress(x, toRead) && |p| <= 8 && Counted(x.pieces, |x.pieces|) < toRead
    requires x.pieces != [] ==> x.pieces[|x.pieces| - 1] != []
    ensures var y := x.(pieces := x.pieces + [p]);
            && InProgress(y, toRead)
            && Counted(y.pieces, |y.pieces|) == (Counted(x.pieces, |x.pieces|) + |p|) % TWO_32
            && Taken(c, y) == Taken(c, x) + (if p == [] then [] else [ReadBytes(c, p)])
  {
    hide Counted, Spell32, Reads;
    var y := x.(pieces := x.pieces + [p]);
    ReadsOne(c, x.pieces, p);
    CountedOne(y.pieces, |x.pieces|);
    forall k | 0 <= k <= |x.pieces| ensures Counted(y.pieces, k) == Counted(x.pieces, k) {
      CountedPrefix(x.pieces, p, k);
    }
  }

  lemma ReadsOne(c: nat, pieces: seq<seq<byte>>, p: seq<byte>)
    ensures Reads(c, pieces + [p]) == Reads(c, pieces) + (if p == [] then [] else [ReadBytes(c, p)])
  {
    assert (pieces + [p])[..|pieces|] == pieces;
  }

  lemma CountedOne(pieces: seq<seq<byte>>, k: nat)
    requires k < |pieces|
    ensures Counted(pieces, k + 1) == (Counted(pieces, k) + |pieces[k]|) % TWO_32
  {
  }

  lemma {:induction false} CountedPrefix(pieces: seq<seq<byte>>, p: seq<byte>, k: nat)
    requires k <= |pieces|
    ensures Counted(pieces + [p], k) == Counted(pieces, k)
  {
    if k > 0 {
      CountedPrefix(pieces, p, k - 1);
    }
  }

  /** One turn of the receive loop, or its end. */
  lemma ReceiveStep(s: State, i: nat, garbage: seq<byte>, ds: seq<Deed>, x: Intake, toRead: uint32)
    returns (x': Intake)
    requires i < |s.children| && |garbage| == 4 && ChildEnabled(s, i)
    requires s.children[i].Receive? && Done(s.children[i], ds, x, toRead)
    ensures var t := ApplyChild(s, i, garbage);
            i < |t.children| && Done(t.children[i], ds + Deeds(s, t), x', toRead)
  {
    hide OnConns, InProgress, Counted, Taken;
    var t, ch := ApplyChild(s, i, garbage), s.children[i];
    var c := ch.conn;
    if ch.got < ch.toRead && ch.last != 0 {
      var inb := s.conns[c].inb;
      var p := inb[..if |inb| < 8 then |inb| else 8];
      x' := x.(pieces := x.pieces + [p]);
      OnlyConn(s, t, c, |s.conns|);
      OneMore(x, toRead, p, c);
      assert Deeds(s, t) == if p == [] then [] else [ReadBytes(c, p)];
      assert ds + Deeds(s, t) == Opening(ch.fd, c) + Taken(c, x');
    } else {
      x' := x;
      NoConn(s, t, |s.conns|);
      assert Deeds(s, t) == [];
      assert Opening(ch.fd, c) + Taken(c, x) + [] == Opening(ch.fd, c) + Taken(c, x);
    }
  }

  lemma OwnStep(s: State, i: nat, garbage: seq<byte>, ds: seq<Deed>, x: Intake, toRead: uint32)
    returns (x': Intake, toRead': uint32)
    requires i < |s.children| && |garbage| == 4 && ChildEnabled(s, i)
    requires !s.children[i].CloseFd? && Done(s.children[i], ds, x, toRead)
    ensures var t := ApplyChild(s, i, garbage);
            i < |t.children| && Done(t.children[i], ds + Deeds(s, t), x', toRead')
  {
    x', toRead' := x, toRead;
    if s.children[i].Header? {
      x', toRead' := HeaderStep(s, i, garbage, ds);
    } else if s.children[i].Receive? {
      x' := ReceiveStep(s, i, garbage, ds, x, toRead);
    } else if s.children[i].Reply? {
      ReplyStep(s, i, garbage, ds, x, toRead);
    } else {
      PlainStep(s, i, garbage, ds, x, toRead);
    }
  }

  /** Nobody else moves a child. */
  lemma OthersSpare(cfg: Config, s: State, step: Step, i: nat)
    requires Enabled(cfg, s, step) && i < |s.children| && !(step.Child? && step.i == i)
    ensures i < |Apply(cfg, s, step).children| && Apply(cfg, s, step).children[i] == s.children[i]
  {
    match step
    case Parent => assert ApplyParent(cfg, s).children == s.children;
    case _ =>
  }

  /* ---- a whole turn ---- */

  /** Child i does not come round to a second turn. */
  predicate OneTurn(cfg: Config, s: State, steps: seq<Step>, i: nat)
    decreases |steps|
  {
    steps != [] ==>
      && Enabled(cfg, s, steps[0])
      && (steps[0].Child? && steps[0].i == i ==> !s.children[i].CloseFd?)
      && OneTurn(cfg, Apply(cfg, s, steps[0]), steps[1..], i)
  }

  lemma {:induction false} TurnSoFar(cfg: Config, s: State, steps: seq<Step>, t: State, i: nat,
                                     ds: seq<Deed>, x: Intake, toRead: uint32)
    returns (x': Intake, toRead': uint32)
    requires i < |s.children| && Done(s.children[i], ds, x, toRead)
    requires Leads(cfg, s, steps, t) && OneTurn(cfg, s, steps, i)
    ensures i < |t.children| && Done(t.children[i], ds + DeedsIn(cfg, s, steps, t, i), x', toRead')
    decreases |steps|
  {
    hide Done, Deeds;
    if steps == [] {
      x', toRead' := x, toRead;
      assert ds + [] == ds;
    } else {
      var u := Apply(cfg, s, steps[0]);
      if steps[0].Child? && steps[0].i == i {
        x', toRead' := OwnStep(s, i, steps[0].garbage, ds, x, toRead);
        x', toRead' := TurnSoFar(cfg, u, steps[1..], t, i, ds + Deeds(s, u), x', toRead');
        assert ds + Deeds(s, u) + DeedsIn(cfg, u, steps[1..], t, i) == ds + DeedsIn(cfg, s, steps, t, i);
      } else {
        OthersSpare(cfg, s, steps[0], i);
        x', toRead' := TurnSoFar(cfg, u, steps[1..], t, i, ds, x, toRead);
        assert DeedsIn(cfg, u, steps[1..], t, i) == DeedsIn(cfg, s, steps, t, i);
      }
    }
  }

  /** From its wait for a connection to the close, whatever others do meanwhile, a child does exactly one turn. */
  lemma WholeTurn(cfg: Config, s: State, steps: seq<Step>, t: State, i: nat) returns (x: Intake, toRead: uint32)
    requires i < |s.children| && s.children[i].WaitRead? && Leads(cfg, s, steps, t) && OneTurn(cfg, s, steps, i)
    requires i < |t.children| && t.children[i].CloseFd?
    ensures Turn(t.children[i].fd, t.children[i].conn, DeedsIn(cfg, s, steps, t, i), x, toRead)
  {
    hide Turn, DeedsIn;
    x, toRead := TurnSoFar(cfg, s, steps, t, i, [], Intake([], []), 0);
    assert [] + DeedsIn(cfg, s, steps, t, i) == DeedsIn(cfg, s, steps, t, i);
  }

  /* ---- against the receive routine ---- */

  /** The script of a link that returns these pieces. */
  function Cuts(pieces: seq<seq<byte>>): (r: seq<Pick>)
    ensures |r| == |pieces| && NoFaults(r)
  {
    seq(|pieces|, k requires 0 <= k < |pieces| => Piece(|pieces[k]|))
  }

  /** A read that is cut after p returns p. */
  lemma ReadsPiece(p: seq<byte>, tail: seq<byte>, ended: bool, picks: seq<Pick>, max: nat)
    requires 0 < |p| <= max
    ensures Recv(Link(p + tail, ended, [Piece(|p|)] + picks, [], []), max)
         == (Data(p), Link(tail, ended, picks, [], []))
  {
    assert (p + tail)[..|p|] == p && (p + tail)[|p|..] == tail;
    assert ([Piece(|p|)] + picks)[1..] == picks;
  }

  /** How many of the pieces have bytes in them: all, or all but the last. */
  function Full(pieces: seq<seq<byte>>): nat {
    if pieces != [] && pieces[|pieces| - 1] == [] then |pieces| - 1 else |pieces|
  }

  predicate Ended(pieces: seq<seq<byte>>) {
    pieces != [] && pieces[|pieces| - 1] == []
  }

  /** The stream from piece k on, cut where the reads were cut; at its end exactly if the last read was empty. */
  function From(pieces: seq<seq<byte>>, k: nat, rest: seq<byte>): Link
    requires k <= Full(pieces)
  {
    Link(Concat(pieces[k..]) + rest, Ended(pieces), Cuts(pieces[k..Full(pieces)]), [], [])
  }

  lemma FromOne(pieces: seq<seq<byte>>, k: nat, rest: seq<byte>)
    requires k < Full(pieces)
    ensures var l := From(pieces, k + 1, rest);
            From(pieces, k, rest) == Link(pieces[k] + l.inb, l.ended, [Piece(|pieces[k]|)] + l.picks, [], [])
  {
    assert pieces[k..][0] == pieces[k] && pieces[k..][1..] == pieces[k + 1..];
    assert pieces[k] + Concat(pieces[k + 1..]) + rest == pieces[k] + (Concat(pieces[k + 1..]) + rest);
    assert Cuts(pieces[k..Full(pieces)]) == [Piece(|pieces[k]|)] + Cuts(pieces[k + 1..Full(pieces)]);
  }

  lemma FromAll(pieces: seq<seq<byte>>, rest: seq<byte>)
    ensures From(pieces, Full(pieces), rest) == Link(rest, Ended(pieces), [], [], [])
  {
    var k := Full(pieces);
    if Ended(pieces) {
      assert pieces[k..] == [[]] && pieces[k..][1..] == [];
      assert Concat(pieces[k..]) == [] + Concat([]);
    } else {
      assert pieces[k..] == [];
    }
    assert [] + rest == rest;
  }

  lemma AtPiece(x: Intake, toRead: uint32, k: nat)
    requires Complete(x, toRead) && k < Full(x.pieces)
    ensures 0 < |x.pieces[k]| <= 8 && Counted(x.pieces, k) < toRead
  {
    hide Counted;
  }

  /** After the last piece with bytes in it: one more read that comes back empty, or none. */
  lemma AtEnd(x: Intake, toRead: uint32)
    requires Complete(x, toRead)
    ensures Counted(x.pieces, Full(x.pieces)) == Counted(x.pieces, |x.pieces|)
    ensures if Ended(x.pieces) then Counted(x.pieces, Full(x.pieces)) < toRead
            else Counted(x.pieces, Full(x.pieces)) >= toRead
  {
    hide Counted, Spell32;
    if Ended(x.pieces) {
      CountedOne(x.pieces, |x.pieces| - 1);
    }
  }

  lemma DrainsNone(rest: seq<byte>, ended: bool, toRead: uint32, got: uint32)
    requires if ended then rest == [] else got >= toRead
    ensures Drain(Link(rest, ended, [], [], []), toRead, got, true) == Received(got, Link(rest, ended, [], [], []))
  {
    var l := Link(rest, ended, [], [], []);
    if got < toRead {
      assert Recv(l, CHUNK) == (End, l);
      assert Drain(l, toRead, got, false) == Received(got, l);
    }
  }

  /** The payload loop of the receive routine counts the pieces up to the end and leaves the rest. */
  lemma {:induction false} DrainsAlike(x: Intake, toRead: uint32, k: nat, rest: seq<byte>)
    requires Complete(x, toRead) && k <= Full(x.pieces) && (Ended(x.pieces) ==> rest == [])
    ensures Drain(From(x.pieces, k, rest), toRead, Counted(x.pieces, k), true)
         == Received(Counted(x.pieces, |x.pieces|), Link(rest, Ended(x.pieces), [], [], []))
    decreases |x.pieces| - k
  {
    hide Recv, Complete, Counted, Drain, From, Cuts, Concat;
    if k < Full(x.pieces) {
      var p, l := x.pieces[k], From(x.pieces, k + 1, rest);
      AtPiece(x, toRead, k);
      FromOne(x.pieces, k, rest);
      FromPlain(x.pieces, k + 1, rest);
      ReadsPiece(p, l.inb, l.ended, l.picks, CHUNK);
      CountedOne(x.pieces, k);
      DrainOnce(From(x.pieces, k, rest), toRead, Counted(x.pieces, k));
      DrainsAlike(x, toRead, k + 1, rest);
    } else {
      FromAll(x.pieces, rest);
      AtEnd(x, toRead);
      DrainsNone(rest, Ended(x.pieces), toRead, Counted(x.pieces, k));
    }
  }

  /**
   What a child of the transition system counts in a turn is what the receive routine counts, on a stream that
   holds what the child has read and is cut where its reads were cut.
   */
  lemma CountsAlike(x: Intake, toRead: uint32, rest: seq<byte>, unset: seq<byte>)
    requires Complete(x, toRead) && |x.header| == 4 && |unset| == 4
    requires Ended(x.pieces) ==> rest == []
    ensures var l := From(x.pieces, 0, rest);
            ChildReception(Link(x.header + l.inb, l.ended, [Piece(4)] + l.picks, [], []), unset)
              == Received(Counted(x.pieces, |x.pieces|), Link(rest, Ended(x.pieces), [], [], []))
  {
    hide Drain, Recv, InProgress, Spell32, Complete, Counted, From;
    var l := From(x.pieces, 0, rest);
    HeaderSpells(x, toRead);
    Be32Of(x.header, toRead);
    ReadsPiece(x.header, l.inb, l.ended, l.picks, 4);
    assert x.header + unset[4..] == x.header;
    CountedNone(x.pieces);
    DrainsAlike(x, toRead, 0, rest);
    FromPlain(x.pieces, 0, rest);
  }

  lemma FromPlain(pieces: seq<seq<byte>>, k: nat, rest: seq<byte>)
    requires k <= Full(pieces)
    ensures From(pieces, k, rest).outb == [] && From(pieces, k, rest).wpicks == []
  {
  }

  lemma HeaderSpells(x: Intake, toRead: uint32)
    requires Complete(x, toRead) && |x.header| == 4
    ensures Spell32(x.header, toRead)
  {
  }

  lemma Be32Of(bs: seq<byte>, n: uint32)
    requires Spell32(bs, n)
    ensures FromBe32(bs) == n
  {
  }

  lemma CountedNone(pieces: seq<seq<byte>>)
    ensures Counted(pieces, 0) == 0
  {
  }
}
