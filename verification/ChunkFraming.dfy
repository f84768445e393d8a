/**
 The receive loops of the poll server and of the process server's children. Both read the header with a
 single recv, which may return fewer than four octets, and then the payload 8 bytes at a time without
 regard to where it ends. So, unlike the one-to-one server's, their outcome depends on fragmentation:
 this module says exactly how.
 */
module ChunkFraming {
  import opened Bytes
  import opened Wire
  import opened Framing

  /** How one request ends: answered with `count`, broken off by an error, or never. */
  datatype Reception = Received(count: uint32, link: Link) | Broken | Waiting

  /** The payload loop from `got` bytes on; `more` tells whether the last recv returned anything. */
  function Drain(l: Link, toRead: uint32, got: uint32, more: bool): (r: Reception)
    ensures r.Received? ==> r.link.outb == l.outb && r.link.wpicks == l.wpicks && r.link.ended == l.ended
    decreases |l.inb| + |l.picks|, more
  {
    if got < toRead && more then
      var (bytes, l') := Recv(l, CHUNK);
      match bytes
      case Data(bs) => Drain(l', toRead, (got + |bs|) % TWO_32, true)
      case End => Drain(l', toRead, got, false)
      case Fault(_) => Broken
      case Stalled => Waiting
    else Received(got, l)
  }

  /** The header as recv left it: the octets that came, the rest of the variable as it was. */
  function Header(bytes: seq<byte>, unset: seq<byte>): uint32
    requires |bytes| <= 4 && |unset| == 4
  {
    FromBe32(bytes + unset[|bytes|..])
  }

  /** poll_recv_and_log up to its reply: nothing in the header read means nothing is read after it either. */
  function PollReception(l: Link, unset: seq<byte>): Reception
    requires |unset| == 4
  {
    var (got, l') := Recv(l, 4);
    match got
    case Data(bs) => Drain(l', Header(bs, unset), 0, true)
    case End => Drain(l', Header([], unset), 0, false)
    case Fault(_) => Broken
    case Stalled => Waiting
  }

  /** The child's version, which tries the payload even when the header read returned nothing. */
  function ChildReception(l: Link, unset: seq<byte>): Reception
    requires |unset| == 4
  {
    var (got, l') := Recv(l, 4);
    match got
    case Data(bs) => Drain(l', Header(bs, unset), 0, true)
    case End => Drain(l', Header([], unset), 0, true)
    case Fault(_) => Broken
    case Stalled => Waiting
  }

  /* ---- the loops ---- */

  datatype CallResult = CallOk | CallError | CallHung

  method DrainLoop(sock: Socket, toRead: uint32, first: bool) returns (r: CallResult, bytesRead: uint32)
    modifies sock
    ensures match Drain(old(sock.link), toRead, 0, first)
            case Received(n, l) => r == CallOk && bytesRead == n && sock.link == l
            case Broken => r == CallError
            case Waiting => r == CallHung
  {
    hide Recv;
    bytesRead := 0;
    var more := first;
    ghost var all := Drain(sock.link, toRead, 0, first);
    while bytesRead < toRead && more
      invariant Drain(sock.link, toRead, bytesRead, more) == all
      decreases |sock.link.inb| + |sock.link.picks|, more
    {
      var got := sock.Read(CHUNK);
      match got {
        case Fault(_) => return CallError, bytesRead;
        case Stalled => return CallHung, bytesRead;
        case End => more := false;
        case Data(bs) => bytesRead := (bytesRead + |bs|) % TWO_32;
      }
    }
    r := CallOk;
  }

  /** The reply goes out in a single send, whose result is looked at only for failure. */
  function Replied(r: Reception): (CallResult, Link)
    requires r.Received?
  {
    var (put, l) := Send(r.link, Be32(r.count));
    (if put.WriteFault? then CallError else CallOk, l)
  }

  method SendCount(sock: Socket, count: uint32) returns (r: CallResult)
    modifies sock
    ensures (r, sock.link) == Replied(Received(count, old(sock.link)))
  {
    var put := sock.Write(Be32(count));
    r := if put.WriteFault? then CallError else CallOk;
  }

  /** poll_recv_and_log. */
  method PollRecvAndLog(sock: Socket, unset: seq<byte>) returns (r: CallResult)
    requires |unset| == 4
    modifies sock
    ensures var x := PollReception(old(sock.link), unset);
            match x
            case Received(_, _) => (r, sock.link) == Replied(x)
            case Broken => r == CallError
            case Waiting => r == CallHung
  {
    hide Drain, Recv;
    var got := sock.Read(4);
    if got.Fault? {
      return CallError;
    }
    if got.Stalled? {
      return CallHung;
    }
    var bytes := if got.Data? then got.bytes else [];
    var n;
    r, n := DrainLoop(sock, Header(bytes, unset), got.Data?);
    if r == CallOk {
      r := SendCount(sock, n);
    }
  }

  /** c_recv_log_notify_parent_respond, but for the log and the notification, which are steps of module Protocol. */
  method ChildReceiveRespond(sock: Socket, unset: seq<byte>) returns (r: CallResult)
    requires |unset| == 4
    modifies sock
    ensures var x := ChildReception(old(sock.link), unset);
            match x
            case Received(_, _) => (r, sock.link) == Replied(x)
            case Broken => r == CallError
            case Waiting => r == CallHung
  {
    hide Drain, Recv;
    var got := sock.Read(4);
    if got.Fault? {
      return CallError;
    }
    if got.Stalled? {
      return CallHung;
    }
    var bytes := if got.Data? then got.bytes else [];
    var n;
    r, n := DrainLoop(sock, Header(bytes, unset), true);
    if r == CallOk {
      r := SendCount(sock, n);
    }
  }

  /* ---- what the payload loop reads ---- */

  lemma SameTail(head: seq<byte>, tail: seq<byte>, k: nat)
    requires k <= |tail|
    ensures (head + tail)[|head| + k..] == tail[k..]
  {
  }

  /**
   Every normal exit has enough bytes or the end of the stream; the count is what was read, and it exceeds
   the request by less than one chunk. BoundIffNoWrap shows that the precondition on `toRead` is the exact one.
   */
  lemma {:induction false} DrainBound(l: Link, toRead: uint32, got: uint32, more: bool)
    requires Drain(l, toRead, got, more).Received?
    requires toRead + 7 < TWO_32 && got <= toRead + 7
    requires !more ==> l.inb == [] && l.ended
    ensures var r := Drain(l, toRead, got, more);
            && |r.link.inb| <= |l.inb| && r.count - got == |l.inb| - |r.link.inb|
            && r.link.inb == l.inb[|l.inb| - |r.link.inb|..]
            && r.count <= toRead + 7
            && (r.count >= toRead || (r.link.inb == [] && l.ended))
    decreases |l.inb| + |l.picks|, more
  {
    hide Recv, NoFaults;
    if got < toRead && more {
      var (bytes, l') := Recv(l, CHUNK);
      match bytes
      case Data(bs) =>
        assert |l.inb| == |bs| + |l'.inb| && (got + |bs|) % TWO_32 == got + |bs|;
        DrainOnce(l, toRead, got);
        hide Drain;
        DrainBound(l', toRead, got + |bs|, true);
        SameTail(bs, l'.inb, |l'.inb| - |Drain(l, toRead, got, more).link.inb|);
      case End => DrainBound(l', toRead, got, false);
    }
  }

  /** With whole chunks read, a count short of every multiple of 8 is passed over at each wrap. */
  lemma {:induction false} NeverCaught(l: Link, toRead: uint32, got: uint32)
    requires toRead + 7 >= TWO_32
    requires got % CHUNK == 0 && |l.inb| % CHUNK == 0 && l.picks == [] && l.ended
    ensures Drain(l, toRead, got, true).Received? && Drain(l, toRead, got, true).link.inb == []
    decreases |l.inb|
  {
    var (bytes, l') := Recv(l, CHUNK);
    if l.inb != [] {
      NeverCaught(l', toRead, (got + CHUNK) % TWO_32);
    }
  }

  /** On every stream the payload loop consumes at most one chunk's overrun. */
  ghost predicate Bounded(toRead: uint32) {
    forall l: Link :: Drain(l, toRead, 0, true).Received? ==>
      |l.inb| - |Drain(l, toRead, 0, true).link.inb| <= toRead + 7
  }

  /** The bound holds of exactly the requests that keep 8 bytes away from the wrap of the 32-bit count. */
  lemma BoundIffNoWrap(toRead: uint32)
    ensures Bounded(toRead) <==> toRead + 7 < TWO_32
  {
    hide Drain;
    if toRead + 7 < TWO_32 {
      forall l: Link | Drain(l, toRead, 0, true).Received?
        ensures |l.inb| - |Drain(l, toRead, 0, true).link.inb| <= toRead + 7
      {
        DrainBound(l, toRead, 0, true);
      }
    } else {
      var l := Link(seq(TWO_32 + CHUNK, _ => 0), true, [], [], []);
      NeverCaught(l, toRead, 0);
    }
  }

  /** It ends normally only over reads that all worked, waits only on an open stream, breaks off only at a fault. */
  lemma {:induction false} DrainUses(l: Link, toRead: uint32, got: uint32, more: bool)
    ensures var r := Drain(l, toRead, got, more);
            && (r.Received? ==> Clean(l.picks, r.link.picks))
            && (l.ended ==> !r.Waiting?)
            && (NoFaults(l.picks) ==> !r.Broken?)
    decreases |l.inb| + |l.picks|, more
  {
    hide Recv, Clean, NoFaults;
    UsedNone(l.picks);
    if got < toRead && more {
      ReadUses(l, CHUNK);
      var (bytes, l') := Recv(l, CHUNK);
      match bytes
      case Data(bs) =>
        DrainUses(l', toRead, (got + |bs|) % TWO_32, true);
        if Drain(l', toRead, (got + |bs|) % TWO_32, true).Received? {
          UsedMore(l.picks, l'.picks, Drain(l', toRead, (got + |bs|) % TWO_32, true).link.picks);
        }
      case End => DrainUses(l', toRead, got, false);
      case _ =>
    }
  }

  lemma ReceptionUses(l: Link, unset: seq<byte>)
    requires |unset| == 4
    ensures var p, c := PollReception(l, unset), ChildReception(l, unset);
            && (p.Received? ==> Clean(l.picks, p.link.picks)) && (c.Received? ==> Clean(l.picks, c.link.picks))
            && (l.ended ==> !p.Waiting? && !c.Waiting?)
            && (NoFaults(l.picks) ==> !p.Broken? && !c.Broken?)
  {
    hide Drain, Recv, Clean, NoFaults;
    ReadUses(l, 4);
    var (got, l') := Recv(l, 4);
    if got.Data? || got.End? {
      var n := Header(if got.Data? then got.bytes else [], unset);
      DrainUses(l', n, 0, true);
      DrainUses(l', n, 0, false);
      forall r: Reception | r.Received? && Clean(l'.picks, r.link.picks) ensures Clean(l.picks, r.link.picks) {
        UsedMore(l.picks, l'.picks, r.link.picks);
      }
    }
  }

  /** When only this request is on the stream, every fragmentation ends with exactly its bytes; nothing wraps. */
  lemma {:induction false} DrainExact(l: Link, toRead: uint32, got: uint32)
    requires NoFaults(l.picks)
    requires got + |l.inb| == toRead
    ensures Drain(l, toRead, got, true).Received?
    ensures Drain(l, toRead, got, true).count == toRead && Drain(l, toRead, got, true).link.inb == []
    decreases |l.inb| + |l.picks|
  {
    hide Recv;
    if got < toRead {
      var (bytes, l') := Recv(l, CHUNK);
      assert bytes.Data?;
      var k := |bytes.bytes|;
      assert |l.inb| == k + |l'.inb| && (got + k) % TWO_32 == got + k;
      DrainExact(l', toRead, got + k);
    }
  }

  /* ---- one whole request ---- */

  /** The stream holds one request and nothing else; its client waits for the reply, or sends no more. */
  predicate OneRequest(l: Link, payload: seq<byte>) {
    && |payload| < TWO_32
    && l.inb == Frame(payload)
    && NoFaults(l.picks)
  }

  /** How many of the header's four octets are there when the header read looks. */
  function HeaderPiece(l: Link): nat {
    if l.picks == [] || !l.picks[0].Piece? then 4 else Within(l.picks[0].count, 1, 4)
  }

  /** The request is consumed to the last byte and answered with its length. */
  predicate Exact(r: Reception, n: nat) {
    r.Received? && r.link.inb == [] && r.count == n
  }

  /** A lone request is read exactly and counted right if and only if the header read returned all four octets. */
  lemma ExactIffHeaderWhole(l: Link, payload: seq<byte>, unset: seq<byte>)
    requires OneRequest(l, payload) && |unset| == 4
    ensures Exact(ChildReception(l, unset), |payload|) <==> HeaderPiece(l) == 4
    ensures Exact(PollReception(l, unset), |payload|) <==> HeaderPiece(l) == 4
  {
    var n := |payload|;
    var (got, l') := Recv(l, 4);
    assert got.Data? && |got.bytes| == HeaderPiece(l);
    assert |l.inb| == |got.bytes| + |l'.inb|;
    if HeaderPiece(l) == 4 {
      assert got.bytes == l.inb[..4] == Be32(n);
      assert got.bytes + unset[4..] == Be32(n);
      Be32RoundTrip(n);
      DrainExact(l', n, 0);
    } else {
      if Drain(l', Header(got.bytes, unset), 0, true).Received? {
        DrainTotal(l', Header(got.bytes, unset), 0);
      }
    }
  }

  /** If the loop empties the stream, its count is, up to the wrap, everything that was there. */
  lemma {:induction false} DrainTotal(l: Link, toRead: uint32, got: uint32)
    requires Drain(l, toRead, got, true).Received?
    ensures |Drain(l, toRead, got, true).link.inb| <= |l.inb|
    ensures var r := Drain(l, toRead, got, true);
            r.count == (got + (|l.inb| - |r.link.inb|)) % TWO_32
    decreases |l.inb| + |l.picks|
  {
    hide Recv, NoFaults, Drain;
    var (bytes, l') := Recv(l, CHUNK);
    if got < toRead && bytes.Data? {
      var k := |bytes.bytes|;
      assert |l.inb| == k + |l'.inb|;
      DrainOnce(l, toRead, got);
      DrainTotal(l', toRead, (got + k) % TWO_32);
      WrapTwice(got, k, |l'.inb| - |Drain(l, toRead, got, true).link.inb|);
    } else {
      DrainStops(l, toRead, got);
    }
  }

  lemma DrainStops(l: Link, toRead: uint32, got: uint32)
    requires Drain(l, toRead, got, true).Received? && (got >= toRead || !Recv(l, CHUNK).0.Data?)
    ensures Drain(l, toRead, got, true).count == got && Drain(l, toRead, got, true).link.inb == l.inb
  {
    hide Recv;
  }

  lemma WrapTwice(a: nat, b: nat, c: nat)
    ensures ((a + b) % TWO_32 + c) % TWO_32 == (a + b + c) % TWO_32
  {
    var q := (a + b) / TWO_32;
    assert a + b == q * TWO_32 + (a + b) % TWO_32;
    var x := (a + b) % TWO_32 + c;
    assert a + b + c == x + q * TWO_32;
    ShiftMod(x, q);
  }

  lemma {:induction false} ShiftMod(x: nat, q: nat)
    ensures (x + q * TWO_32) % TWO_32 == x % TWO_32
  {
    if q > 0 {
      ShiftMod(x, q - 1);
      assert x + q * TWO_32 == (x + (q - 1) * TWO_32) + TWO_32;
    }
  }

  /**
   A split header at work: the request for an empty payload, its four octets arriving as three and one, is
   answered with 1 when the variable's last octet held 1.
   */
  lemma SplitHeaderGoesWrong()
    ensures var l := Link(Frame([]), false, [Piece(3)], [], []);
            && OneRequest(l, [])
            && ChildReception(l, [0, 0, 0, 1]).Received?
            && ChildReception(l, [0, 0, 0, 1]).count == 1
  {
    var l := Link(Frame([]), false, [Piece(3)], [], []);
    var (got, l') := Recv(l, 4);
    assert got == Data([0, 0, 0]);
    assert Header([0, 0, 0], [0, 0, 0, 1]) == 1 by {
      assert [0, 0, 0] + [0, 0, 0, 1][3..] == [0, 0, 0, 1];
    }
    assert l' == Link([0], false, [], [], []);
    var (got2, l2) := Recv(l', CHUNK);
    assert got2 == Data([0]);
    assert Drain(l2, 1, 1, true) == Received(1, l2);
  }

  /** Poll server and process child differ in code at a stream that has ended, and in nothing anyone can see. */
  lemma PollAndChildAgree(l: Link, unset: seq<byte>)
    requires NoFaults(l.picks) && |unset| == 4
    ensures PollReception(l, unset) == ChildReception(l, unset)
    ensures l.inb == [] && l.ended ==> ChildReception(l, unset) == Received(0, l)
  {
    var (got, l') := Recv(l, 4);
    if got.End? {
      assert l' == l && Recv(l, CHUNK) == (End, l);
    }
  }

  /** How many of the reply's octets the one send moves. */
  function ReplyPiece(l: Link): nat {
    if l.wpicks == [] then 4
    else if l.wpicks[0].Piece? then Within(l.wpicks[0].count, 0, 4)
    else 0
  }

  /** Poll server and child send the reply once: that much of it is out, and only a fault is noticed. */
  lemma ReplyIsOneSend(l: Link, unset: seq<byte>)
    requires |unset| == 4 && ChildReception(l, unset).Received?
    ensures var r := ChildReception(l, unset);
            && Replied(r).1.outb == l.outb + Be32(r.count)[..ReplyPiece(l)]
            && (Replied(r).0 == CallOk <==> l.wpicks == [] || l.wpicks[0].Piece?)
  {
    hide ChildReception, Be32, NoFaults;
    KeepsOutput(l, unset);
    var bytes := Be32(ChildReception(l, unset).count);
    assert bytes[..4] == bytes;
    assert l.outb + bytes[..0] == l.outb;
  }

  /**
   The request is served: consumed to the last byte, counted right, and the four octets of its length sent.
   */
  predicate Served(l: Link, r: Reception, n: uint32) {
    Exact(r, n) && Replied(r).1.outb == l.outb + Be32(n)
  }

  /**
   A lone request is served by poll server and child if and only if the header read returned all four octets
   and the first send moves all four: in either direction nothing tries again for the rest.
   */
  lemma ServedIffWhole(l: Link, payload: seq<byte>, unset: seq<byte>)
    requires OneRequest(l, payload) && |unset| == 4
    ensures Served(l, ChildReception(l, unset), |payload|) <==> HeaderPiece(l) == 4 && ReplyPiece(l) == 4
    ensures Served(l, PollReception(l, unset), |payload|) <==> HeaderPiece(l) == 4 && ReplyPiece(l) == 4
  {
    hide ChildReception, PollReception, Replied, Be32, NoFaults, Frame, HeaderPiece, ReplyPiece;
    ExactIffHeaderWhole(l, payload, unset);
    PollAndChildAgree(l, unset);
    if HeaderPiece(l) == 4 {
      ReplyIsOneSend(l, unset);
      var n, k := |payload|, ReplyPiece(l);
      assert k <= 4 by { ReplyPieceSize(l); }
      if k < 4 {
        assert |l.outb + Be32(n)[..k]| < |l.outb + Be32(n)|;
      } else {
        assert Be32(n)[..k] == Be32(n);
      }
    }
  }

  lemma ReplyPieceSize(l: Link)
    ensures ReplyPiece(l) <= 4
  {
  }

  /** A short send at work: two of the four octets go out, the call reports success, and the client waits for more. */
  lemma ShortSendGoesUnnoticed()
    ensures var l := Link(Frame([]), false, [], [], [Piece(2)]);
            && OneRequest(l, []) && HeaderPiece(l) == 4
            && Exact(ChildReception(l, [0, 0, 0, 0]), 0)
            && Replied(ChildReception(l, [0, 0, 0, 0])).0 == CallOk
            && Replied(ChildReception(l, [0, 0, 0, 0])).1.outb == [0, 0]
  {
    var l := Link(Frame([]), false, [], [], [Piece(2)]);
    ExactIffHeaderWhole(l, [], [0, 0, 0, 0]);
    ReplyIsOneSend(l, [0, 0, 0, 0]);
    assert [] + Be32(0)[..2] == [0, 0];
  }

  /**
   On one request whose header arrives whole, whatever the fragmentation in both directions, all three servers
   consume it exactly and answer with the octets that spell its length: the one-to-one server with all four,
   the others with as many as their one send moves.
   */
  lemma ThreeServersAgree(l: Link, payload: seq<byte>, unset: seq<byte>)
    requires OneRequest(l, payload) && HeaderPiece(l) == 4 && |unset| == 4
    ensures OneToOne(l.inb, l.ended, unset) == Exchange(MsgSuccess, |l.inb|, Be32(|payload|))
    ensures Exact(PollReception(l, unset), |payload|) && Exact(ChildReception(l, unset), |payload|)
    ensures ReplyPiece(l) <= 4
    ensures Replied(PollReception(l, unset)).1.outb == l.outb + Be32(|payload|)[..ReplyPiece(l)]
    ensures Replied(ChildReception(l, unset)).1.outb == l.outb + Be32(|payload|)[..ReplyPiece(l)]
  {
    hide ChildReception, PollReception, Replied, Be32, NoFaults, HeaderPiece, ReplyPiece, OneToOne;
    assert Frame(payload) + [] == l.inb;
    OneFrame(payload, [], l.ended, unset);
    ExactIffHeaderWhole(l, payload, unset);
    PollAndChildAgree(l, unset);
    ReplyPieceSize(l);
    ReplyIsOneSend(l, unset);
  }

  /** Receiving sends nothing. */
  lemma KeepsOutput(l: Link, unset: seq<byte>)
    requires |unset| == 4 && ChildReception(l, unset).Received?
    ensures ChildReception(l, unset).link.outb == l.outb && ChildReception(l, unset).link.wpicks == l.wpicks
  {
  }

  /* ---- pipelining, which these loops do not support ---- */

  /** A payload is on the stream and `more` after it: do all fragmentations leave exactly `more`? */
  ghost predicate AlwaysStops(payload: seq<byte>, more: seq<byte>)
    requires |payload| < TWO_32
  {
    forall picks: seq<Pick> :: NoFaults(picks) ==>
      var r := Drain(Link(payload + more, false, picks, [], []), |payload|, 0, true);
      r.Received? && r.link.inb == more
  }

  lemma {:induction false} DrainShrinks(l: Link, toRead: uint32, got: uint32, more: bool)
    requires Drain(l, toRead, got, more).Received?
    ensures |Drain(l, toRead, got, more).link.inb| <= |l.inb|
    decreases |l.inb| + |l.picks|, more
  {
    hide Recv;
    if got < toRead && more {
      var (bytes, l') := Recv(l, CHUNK);
      match bytes
      case Data(bs) =>
        assert |l.inb| == |bs| + |l'.inb|;
        DrainShrinks(l', toRead, (got + |bs|) % TWO_32, true);
      case End => DrainShrinks(l', toRead, got, false);
    }
  }

  function Singles(k: nat): (r: seq<Pick>)
    ensures NoFaults(r)
  {
    seq(k, _ => Piece(1))
  }

  lemma DrainOnce(l: Link, toRead: uint32, got: uint32)
    requires got < toRead && Recv(l, CHUNK).0.Data?
    ensures var (bytes, l') := Recv(l, CHUNK);
            Drain(l, toRead, got, true) == Drain(l', toRead, (got + |bytes.bytes|) % TWO_32, true)
  {
    hide Recv;
  }

  /** One byte at a time up to the last but one, then whatever is there: the last read runs over into what follows. */
  lemma {:induction false} RunsOver(inb: seq<byte>, toRead: uint32, got: uint32)
    requires got < toRead && |inb| > toRead - got
    ensures var r := Drain(Link(inb, false, Singles(toRead - got - 1), [], []), toRead, got, true);
            r.Received? ==> |r.link.inb| < |inb| - (toRead - got)
    decreases toRead - got
  {
    hide Drain;
    var l := Link(inb, false, Singles(toRead - got - 1), [], []);
    var (bytes, l') := Recv(l, CHUNK);
    DrainOnce(l, toRead, got);
    var got' := (got + |bytes.bytes|) % TWO_32;
    assert |l.inb| == |bytes.bytes| + |l'.inb|;
    if toRead - got == 1 {
      assert |bytes.bytes| >= 2;
      if Drain(l', toRead, got', true).Received? {
        DrainShrinks(l', toRead, got', true);
      }
    } else {
      assert l' == Link(inb[1..], false, Singles(toRead - got' - 1), [], []);
      RunsOver(inb[1..], toRead, got');
    }
  }

  /** The payload loop always stops at the end of its request if and only if there is no payload or nothing follows. */
  lemma StopsIffNothingFollows(payload: seq<byte>, more: seq<byte>)
    requires |payload| < TWO_32
    ensures AlwaysStops(payload, more) <==> payload == [] || more == []
  {
    if payload == [] {
      assert payload + more == more;
    } else if more == [] {
      assert payload + more == payload;
      forall picks: seq<Pick> | NoFaults(picks)
        ensures var r := Drain(Link(payload + more, false, picks, [], []), |payload|, 0, true);
                r.Received? && r.link.inb == more
      {
        DrainExact(Link(payload, false, picks, [], []), |payload|, 0);
      }
    } else {
      RunsOver(payload + more, |payload|, 0);
      var picks := Singles(|payload| - 1);
      assert !(var r := Drain(Link(payload + more, false, picks, [], []), |payload|, 0, true);
               r.Received? && r.link.inb == more);
    }
  }
}
