/**
 The framed request and its reply: four octets of length in network order, the payload, and back four
 octets with the number of payload bytes received. The three servers receive it with three loops:
 the one-to-one server asks for what remains, at most 1 MiB at a time; the poll server and the children of
 the process server ask for 8 bytes (sizeof a pointer) until they have enough.
 */
module Framing {
  import opened Bytes
  import opened Wire

  function Frame(payload: seq<byte>): (r: seq<byte>)
    requires |payload| < TWO_32
    ensures |r| == 4 + |payload|
  {
    Be32(|payload|) + payload
  }

  /** The frame's first four octets spell the length, high one first. */
  lemma FrameOctets(payload: seq<byte>)
    requires |payload| < TWO_32
    ensures Spell32(Frame(payload)[..4], |payload|) && Frame(payload)[4..] == payload
  {
    Octets(0, |payload|);
    hide Be32, Spell32;
    assert Frame(payload)[..4] == Be32(|payload|);
  }

  const MIB: nat := 0x10_0000

  /* ---- the one-to-one server ---- */

  /** MSG_RESULT_*, and `MsgHung` for a call that never returns. */
  datatype MsgResult = MsgSuccess | MsgError | MsgClosed | MsgTermination | MsgHung

  /** What one receive_message does to a stream: how it ends, what it consumes, what it answers. */
  datatype Exchange = Exchange(result: MsgResult, consumed: nat, reply: seq<byte>)

  /**
   The simple form that knows nothing of fragmentation. `unset` is what the length variable held before;
   it shows only when the stream ends inside a header.
   */
  function OneToOne(inb: seq<byte>, ended: bool, unset: seq<byte>): (x: Exchange)
    requires |unset| == 4
    ensures x.consumed <= |inb|
    ensures x.result.MsgSuccess? ==> x.consumed >= 1
  {
    if |inb| < 4 && !ended then Exchange(MsgHung, 0, [])
    else if inb == [] then Exchange(MsgClosed, 0, [])
    else
      var h := if |inb| < 4 then |inb| else 4;
      var n := FromBe32(inb[..h] + unset[h..]);
      if |inb| >= h + n then Exchange(MsgSuccess, h + n, Be32(n))
      else Exchange(if ended then MsgClosed else MsgHung, |inb|, [])
  }

  /** No send on this link moves nothing. */
  predicate Eager(wpicks: seq<Pick>) {
    forall k :: 0 <= k < |wpicks| ==> wpicks[k].Piece? && wpicks[k].count > 0
  }

  predicate Healthy(l: Link) {
    NoFaults(l.picks) && Eager(l.wpicks)
  }

  /** `left` is what remains of `all` after some first part. */
  predicate Remains(left: seq<byte>, all: seq<byte>) {
    |left| <= |all| && left == all[|all| - |left|..]
  }

  /** The last send failed, and those before it moved something. */
  predicate WriteFailed(before: seq<Pick>, after: seq<Pick>) {
    StoppedBy(before, after, Interrupt) || StoppedBy(before, after, Failure)
  }

  lemma EagerOnly(l: Link, data: seq<byte>)
    requires data != []
    ensures Eager(l.wpicks) ==>
              Send(l, data).0.Sent? && Send(l, data).0.count > 0 && Eager(Send(l, data).1.wpicks)
    ensures Send(l, data).1.inb == l.inb && Send(l, data).1.ended == l.ended && Send(l, data).1.picks == l.picks
  {
  }

  /** Send the four octets of the reply, in as many pieces as it takes. */
  method SendReply(sock: Socket, msgSize: uint32) returns (r: MsgResult)
    modifies sock
    ensures r.MsgSuccess? ==> sock.link.outb == old(sock.link.outb) + Be32(msgSize)
    ensures old(sock.link.outb) <= sock.link.outb <= old(sock.link.outb) + Be32(msgSize)
    ensures Eager(old(sock.link.wpicks)) ==> r.MsgSuccess? && Eager(sock.link.wpicks)
    ensures match r
            case MsgSuccess => Moving(old(sock.link.wpicks), sock.link.wpicks)
            case MsgClosed => StoppedBy(old(sock.link.wpicks), sock.link.wpicks, Piece(0))
            case MsgError => WriteFailed(old(sock.link.wpicks), sock.link.wpicks)
            case _ => false
    ensures sock.link.inb == old(sock.link.inb) && sock.link.ended == old(sock.link.ended)
    ensures sock.link.picks == old(sock.link.picks)
  {
    hide Moving, StoppedBy, Send;
    UsedNone(sock.link.wpicks);
    var reply := Be32(msgSize);
    var toSend := 4;
    ghost var start := sock.link;
    while toSend > 0
      invariant 0 <= toSend <= 4
      invariant sock.link.outb == start.outb + reply[..4 - toSend]
      invariant sock.link.inb == start.inb && sock.link.ended == start.ended && sock.link.picks == start.picks
      invariant Eager(start.wpicks) ==> Eager(sock.link.wpicks)
      invariant Moving(start.wpicks, sock.link.wpicks)
      decreases toSend
    {
      ghost var here := sock.link;
      SendUses(here, reply[4 - toSend..]);
      EagerOnly(here, reply[4 - toSend..]);
      var put := sock.Write(reply[4 - toSend..]);
      UsedMore(start.wpicks, here.wpicks, sock.link.wpicks);
      UsedLast(start.wpicks, here.wpicks, sock.link.wpicks, Piece(0));
      UsedLast(start.wpicks, here.wpicks, sock.link.wpicks, Interrupt);
      UsedLast(start.wpicks, here.wpicks, sock.link.wpicks, Failure);
      if put.WriteFault? {
        return MsgError;
      }
      if put.count == 0 {
        return MsgClosed;
      }
      assert reply[..4 - toSend] + reply[4 - toSend..][..put.count] == reply[..4 - toSend + put.count];
      toSend := toSend - put.count;
    }
    r := MsgSuccess;
  }

  /** How a call that only reads ends is a matter of the script's last entry used, and of the end of the stream. */
  predicate ReadsExplain(r: MsgResult, before: seq<Pick>, after: Link) {
    match r
    case MsgTermination => StruckBy(before, after.picks, Interrupt)
    case MsgError => StruckBy(before, after.picks, Failure)
    case MsgSuccess => Clean(before, after.picks)
    case MsgClosed => Clean(before, after.picks) && after.ended
    case MsgHung => Clean(before, after.picks) && !after.ended
  }

  /**
   How receive_message ends, on any link: an interrupted read is a termination; a failing read or send an
   error; closed is the end of the stream or a send of nothing; otherwise every call moved something.
   */
  predicate Explains(r: MsgResult, before: Link, after: Link) {
    match r
    case MsgTermination => StruckBy(before.picks, after.picks, Interrupt) && Moving(before.wpicks, after.wpicks)
    case MsgError =>
      || (StruckBy(before.picks, after.picks, Failure) && Moving(before.wpicks, after.wpicks))
      || (Clean(before.picks, after.picks) && WriteFailed(before.wpicks, after.wpicks))
    case MsgClosed =>
      && Clean(before.picks, after.picks)
      && ((after.ended && after.inb == [] && Moving(before.wpicks, after.wpicks))
          || StoppedBy(before.wpicks, after.wpicks, Piece(0)))
    case MsgHung => !after.ended && Clean(before.picks, after.picks) && Moving(before.wpicks, after.wpicks)
    case MsgSuccess => Clean(before.picks, after.picks) && Moving(before.wpicks, after.wpicks)
  }

  /** A message that ended like this, after others that succeeded, ends the whole like this. */
  lemma ExplainsOn(r: MsgResult, a: Link, b: Link, c: Link)
    requires Explains(MsgSuccess, a, b) && Explains(r, b, c)
    ensures Explains(r, a, c)
  {
    hide Clean, Moving, StruckBy, StoppedBy;
    UsedMore(a.picks, b.picks, c.picks);
    UsedMore(a.wpicks, b.wpicks, c.wpicks);
    UsedLast(a.picks, b.picks, c.picks, Interrupt);
    UsedLast(a.picks, b.picks, c.picks, Failure);
    UsedLast(a.wpicks, b.wpicks, c.wpicks, Interrupt);
    UsedLast(a.wpicks, b.wpicks, c.wpicks, Failure);
    UsedLast(a.wpicks, b.wpicks, c.wpicks, Piece(0));
  }

  /** So the scripts and the stream decide the result: no two but success are explained alike. */
  lemma OneExplanation(r: MsgResult, r': MsgResult, before: Link, after: Link)
    requires Explains(r, before, after) && Explains(r', before, after)
    ensures r == r' || r.MsgSuccess? || r'.MsgSuccess?
  {
    NotAlso(before.picks, after.picks);
    NotAlso(before.wpicks, after.wpicks);
    hide Clean, Moving, StruckBy, StoppedBy;
  }

  lemma NotAlso(a: seq<Pick>, b: seq<Pick>)
    ensures StruckBy(a, b, Interrupt) ==> !Clean(a, b) && !StruckBy(a, b, Failure)
    ensures StruckBy(a, b, Failure) ==> !Clean(a, b)
    ensures StoppedBy(a, b, Piece(0)) ==> !Moving(a, b) && !WriteFailed(a, b)
    ensures WriteFailed(a, b) ==> !Moving(a, b)
  {
    hide Clean, Moving, StruckBy, StoppedBy;
    forall p: Pick | StruckBy(a, b, p) || StoppedBy(a, b, p)
      ensures |b| < |a| && a[|a| - |b| - 1] == p
      ensures !p.Piece? ==> !Clean(a, b)
      ensures !p.Piece? || p.count == 0 ==> !Moving(a, b)
    {
      LastUsed(a, b, p);
    }
  }

  /** Counting down from the announced length, receive exactly that many payload bytes. */
  method ReceivePayload(sock: Socket, msgSize: uint32) returns (r: MsgResult)
    modifies sock
    ensures NoFaults(old(sock.link.picks)) ==>
              && r == (if |old(sock.link.inb)| >= msgSize then MsgSuccess
                       else if old(sock.link.ended) then MsgClosed else MsgHung)
              && sock.link.inb == (if r.MsgSuccess? then old(sock.link.inb)[msgSize..] else [])
              && NoFaults(sock.link.picks)
    ensures r.MsgSuccess? ==> |old(sock.link.inb)| >= msgSize && sock.link.inb == old(sock.link.inb)[msgSize..]
    ensures Remains(sock.link.inb, old(sock.link.inb))
    ensures ReadsExplain(r, old(sock.link.picks), sock.link)
    ensures r.MsgClosed? ==> sock.link.inb == []
    ensures sock.link.ended == old(sock.link.ended)
    ensures sock.link.outb == old(sock.link.outb) && sock.link.wpicks == old(sock.link.wpicks)
  {
    hide Recv, Clean, StruckBy, NoFaults, Remains;
    UsedNone(sock.link.picks);
    RemainsAt(sock.link.inb);
    var remaining: uint32 := msgSize;
    ghost var start := sock.link;
    while remaining > 0
      invariant remaining <= msgSize && msgSize - remaining <= |start.inb|
      invariant sock.link.inb == start.inb[msgSize - remaining..]
      invariant sock.link.outb == start.outb && sock.link.wpicks == start.wpicks && sock.link.ended == start.ended
      invariant NoFaults(start.picks) ==> NoFaults(sock.link.picks)
      invariant Clean(start.picks, sock.link.picks)
      decreases remaining
    {
      ghost var picks := sock.link.picks;
      ReadUses(sock.link, if MIB < remaining then MIB else remaining);
      var got := sock.Read(if MIB < remaining then MIB else remaining);
      ReadsOn(start.picks, picks, sock.link.picks);
      match got {
        case End => return MsgClosed;
        case Fault(eintr) => return if eintr then MsgTermination else MsgError;
        case Stalled => return MsgHung;
        case Data(bytes) =>
          Consumed(start.inb, msgSize - remaining, bytes, sock.link.inb);
          remaining := remaining - |bytes|;
      }
    }
    r := MsgSuccess;
  }

  lemma RemainsAt(all: seq<byte>)
    ensures forall k :: 0 <= k <= |all| ==> Remains(all[k..], all)
  {
  }

  lemma ReadsOn(a: seq<Pick>, b: seq<Pick>, c: seq<Pick>)
    requires Clean(a, b)
    ensures Clean(b, c) ==> Clean(a, c)
    ensures StruckBy(b, c, Interrupt) ==> StruckBy(a, c, Interrupt)
    ensures StruckBy(b, c, Failure) ==> StruckBy(a, c, Failure)
  {
    UsedMore(a, b, c);
    UsedLast(a, b, c, Interrupt);
    UsedLast(a, b, c, Failure);
  }

  /** What the header read finds, and what the simple form makes of it. */
  lemma HeaderRead(l: Link, unset: seq<byte>)
    requires |unset| == 4
    ensures var (got, l') := RecvAll(l, 4);
            var x := OneToOne(l.inb, l.ended, unset);
            match got
            case End => x == Exchange(MsgClosed, 0, []) && l' == l
            case Stalled => x == Exchange(MsgHung, 0, []) && l' == l
            case Fault(_) => l'.inb == l.inb && l'.outb == l.outb
            case Data(bs) =>
              var n := FromBe32(bs + unset[|bs|..]);
              && l'.inb == l.inb[|bs|..] && l'.outb == l.outb
              && x == if |l'.inb| >= n then Exchange(MsgSuccess, |bs| + n, Be32(n))
                      else Exchange(if l.ended then MsgClosed else MsgHung, |l.inb|, [])
    ensures NoFaults(l.picks) ==> NoFaults(RecvAll(l, 4).1.picks)
  {
    hide FromBe32, Be32, NoFaults;
  }

  lemma AfterHeader(inb: seq<byte>, h: nat, n: nat)
    requires h <= |inb|
    ensures |inb| >= h + n ==> inb[h..][n..] == inb[h + n..]
    ensures inb[|inb|..] == [] && inb[0..] == inb
    ensures forall left :: Remains(left, inb[h..]) ==> Remains(left, inb)
  {
    forall left | Remains(left, inb[h..]) ensures Remains(left, inb) {
      assert inb[h..][|inb| - h - |left|..] == inb[|inb| - |left|..];
    }
  }

  /** How the header read explains what follows from it. */
  lemma HeaderUses(l: Link)
    ensures var (got, l') := RecvAll(l, 4);
            && l'.wpicks == l.wpicks && l'.ended == l.ended
            && match got
               case End => Explains(MsgClosed, l, l')
               case Fault(eintr) => Explains(if eintr then MsgTermination else MsgError, l, l')
               case Stalled => Explains(MsgHung, l, l')
               case Data(_) => Explains(MsgSuccess, l, l')
    ensures l.picks != [] && !l.picks[0].Piece? ==> RecvAll(l, 4).0 == Fault(l.picks[0].Interrupt?)
  {
    hide Clean, Moving, StruckBy, StoppedBy;
    ReadUses(l, 4);
    UsedNone(l.wpicks);
  }

  /** What the rest of a message does, its length known: the payload in, the count out, or stuck on the way. */
  predicate Replies(r: MsgResult, before: Link, after: Link, n: uint32) {
    && (Healthy(before) ==>
          && Healthy(after)
          && (if |before.inb| >= n then
                r == MsgSuccess
              else
                r == (if before.ended then MsgClosed else MsgHung) && after.inb == [] && after.outb == before.outb))
    && (r.MsgSuccess? ==>
          |before.inb| >= n && after.inb == before.inb[n..] && after.outb == before.outb + Be32(n))
    && before.outb <= after.outb
    && after.outb <= before.outb + (if |before.inb| >= n then Be32(n) else [])
    && Remains(after.inb, before.inb)
    && after.ended == before.ended
  }

  method ReceiveAndReply(sock: Socket, msgSize: uint32) returns (r: MsgResult)
    modifies sock
    ensures Replies(r, old(sock.link), sock.link, msgSize)
    ensures Explains(r, old(sock.link), sock.link)
  {
    hide Be32, NoFaults, Eager, Remains, Clean, Moving, StruckBy, StoppedBy;
    UsedNone(sock.link.wpicks);
    r := ReceivePayload(sock, msgSize);
    if r.MsgSuccess? {
      r := SendReply(sock, msgSize);
    }
  }

  /**
   What receive_message does to a link: without faults exactly what the simple form says; on any link success
   means just that, and anything else stops somewhere on the way to it.
   */
  predicate Receives(r: MsgResult, before: Link, after: Link, unset: seq<byte>)
    requires |unset| == 4
  {
    var x := OneToOne(before.inb, before.ended, unset);
    && (Healthy(before) ==>
          && r == x.result && Healthy(after)
          && after.inb == before.inb[x.consumed..] && after.outb == before.outb + x.reply)
    && (r.MsgSuccess? ==>
          && x.result.MsgSuccess?
          && after.inb == before.inb[x.consumed..] && after.outb == before.outb + x.reply)
    && before.outb <= after.outb <= before.outb + x.reply
    && Remains(after.inb, before.inb)
    && after.ended == before.ended
  }

  lemma HeaderThenReply(start: Link, unset: seq<byte>, r: MsgResult, after: Link)
    requires |unset| == 4 && RecvAll(start, 4).0.Data?
    requires var (got, here) := RecvAll(start, 4);
             Replies(r, here, after, FromBe32(got.bytes + unset[|got.bytes|..]))
    ensures Receives(r, start, after, unset)
  {
    hide FromBe32, Be32, OneToOne, RecvAll, NoFaults, Eager, Remains;
    var (got, here) := RecvAll(start, 4);
    HeaderRead(start, unset);
    HeaderUses(start);
    hide Explains;
    var n := FromBe32(got.bytes + unset[|got.bytes|..]);
    AfterHeader(start.inb, |got.bytes|, n);
    assert start.outb + [] == start.outb;
  }

  lemma NoHeader(start: Link, unset: seq<byte>, r: MsgResult)
    requires |unset| == 4 && !RecvAll(start, 4).0.Data?
    requires match RecvAll(start, 4).0
             case End => r == MsgClosed
             case Stalled => r == MsgHung
             case _ => !r.MsgSuccess?
    ensures Receives(r, start, RecvAll(start, 4).1, unset)
  {
    hide FromBe32, Be32;
    AfterHeader(start.inb, 0, 0);
    WholeRemains(start.inb);
  }

  /** One request and its reply, whatever the fragmentation; how it ends is explained by the link's scripts. */
  method ReceiveMessage(sock: Socket, unset: seq<byte>) returns (r: MsgResult)
    requires |unset| == 4
    modifies sock
    ensures Receives(r, old(sock.link), sock.link, unset)
    ensures Explains(r, old(sock.link), sock.link)
    ensures var picks := old(sock.link.picks);
            && (picks != [] && picks[0].Interrupt? ==> r == MsgTermination)
            && (picks != [] && picks[0].Failure? ==> r == MsgError)
  {
    hide FromBe32, RecvAll, Explains, Receives, Replies;
    ghost var start := sock.link;
    HeaderUses(start);
    var got := sock.ReadAll(4);
    match got {
      case End =>
        NoHeader(start, unset, MsgClosed);
        return MsgClosed;
      case Fault(eintr) =>
        r := if eintr then MsgTermination else MsgError;
        NoHeader(start, unset, r);
        return;
      case Stalled =>
        NoHeader(start, unset, MsgHung);
        return MsgHung;
      case Data(_) =>
    }
    ghost var here := sock.link;
    r := ReceiveAndReply(sock, FromBe32(got.bytes + unset[|got.bytes|..]));
    HeaderThenReply(start, unset, r, sock.link);
    ExplainsOn(r, start, here, sock.link);
  }

  lemma RemainsOn(a: seq<byte>, b: seq<byte>, c: seq<byte>)
    requires Remains(b, a) && Remains(c, b)
    ensures Remains(c, a)
  {
    assert b[|b| - |c|..] == a[|a| - |c|..];
  }

  lemma WholeRemains(all: seq<byte>)
    ensures Remains(all, all)
  {
  }

  /** CLIENT_RESULT_*, and `ClientHung` for a client that is served no more and not let go either. */
  datatype ClientResult = ClientSuccess | ClientError | ClientTermination | ClientHung

  datatype Session = Session(result: ClientResult, left: seq<byte>, replies: seq<byte>)

  /** What handle_client does to a whole stream, without regard to fragmentation. */
  function Serve(inb: seq<byte>, ended: bool, unset: seq<byte>): Session
    requires |unset| == 4
    decreases |inb|
  {
    var x := OneToOne(inb, ended, unset);
    var left := inb[x.consumed..];
    if x.result.MsgSuccess? then
      var rest := Serve(left, ended, unset);
      Session(rest.result, rest.left, x.reply + rest.replies)
    else Session(Verdict(x.result), left, x.reply)
  }

  /** How handle_client reports the last message's result. */
  function Verdict(r: MsgResult): ClientResult {
    match r
    case MsgError => ClientError
    case MsgTermination => ClientTermination
    case MsgHung => ClientHung
    case _ => ClientSuccess
  }

  lemma ServeStep(inb: seq<byte>, ended: bool, unset: seq<byte>)
    requires |unset| == 4
    ensures var x, s := OneToOne(inb, ended, unset), Serve(inb, ended, unset);
            if x.result.MsgSuccess? then
              var rest := Serve(inb[x.consumed..], ended, unset);
              s.result == rest.result && s.left == rest.left && s.replies == x.reply + rest.replies
            else s == Session(Verdict(x.result), inb[x.consumed..], x.reply)
  {
  }

  /**
   Without faults the whole stream is served as `Serve` says. On any link what is read is a first part of the
   stream and what is sent a first part of those replies, in order; so no client gets a reply it did not ask for;
   and the result is what `Explains` says, an error or a termination exactly if a call failed or was interrupted.
   */
  method HandleClient(sock: Socket, unset: seq<byte>) returns (r: ClientResult)
    requires |unset| == 4
    modifies sock
    ensures var s := Serve(old(sock.link.inb), old(sock.link.ended), unset);
            && (Healthy(old(sock.link)) ==>
                  && r == s.result
                  && sock.link.inb == s.left
                  && sock.link.outb == old(sock.link.outb) + s.replies)
            && old(sock.link.outb) <= sock.link.outb <= old(sock.link.outb) + s.replies
    ensures Remains(sock.link.inb, old(sock.link.inb))
    ensures match r
            case ClientTermination => Explains(MsgTermination, old(sock.link), sock.link)
            case ClientError => Explains(MsgError, old(sock.link), sock.link)
            case ClientSuccess => Explains(MsgClosed, old(sock.link), sock.link)
            case ClientHung => Explains(MsgHung, old(sock.link), sock.link)
    ensures var picks := old(sock.link.picks);
            && (picks != [] && picks[0].Interrupt? ==> r == ClientTermination)
            && (picks != [] && picks[0].Failure? ==> r == ClientError)
  {
    hide OneToOne, Serve, Healthy, Explains, Remains;
    NothingUsed(sock.link);
    WholeRemains(sock.link.inb);
    var result := MsgSuccess;
    ghost var start, ended := sock.link, sock.link.ended;
    ghost var all := Serve(sock.link.inb, ended, unset);
    while result == MsgSuccess
      invariant sock.link.ended == ended && Remains(sock.link.inb, start.inb)
      invariant Healthy(start) ==> Healthy(sock.link)
      invariant Explains(result, start, sock.link)
      invariant start.picks != [] && start.picks[0].Interrupt? ==>
                  result == MsgTermination || (result.MsgSuccess? && sock.link.picks == start.picks)
      invariant start.picks != [] && start.picks[0].Failure? ==>
                  result == MsgError || (result.MsgSuccess? && sock.link.picks == start.picks)
      invariant result.MsgSuccess? ==>
                  var rest := Serve(sock.link.inb, ended, unset);
                  && all.result == rest.result && all.left == rest.left
                  && start.outb <= sock.link.outb && start.outb + all.replies == sock.link.outb + rest.replies
      invariant !result.MsgSuccess? ==>
                  && start.outb <= sock.link.outb <= start.outb + all.replies
                  && (Healthy(start) ==>
                        && all.result == Verdict(result) && all.left == sock.link.inb
                        && start.outb + all.replies == sock.link.outb)
      decreases result.MsgSuccess?, |sock.link.inb|
    {
      ghost var here := sock.link;
      ServeStep(here.inb, ended, unset);
      ghost var x, rest := OneToOne(here.inb, ended, unset), Serve(here.inb, ended, unset);
      assert here.outb + x.reply <= here.outb + rest.replies;
      result := ReceiveMessage(sock, unset);
      ExplainsOn(result, start, here, sock.link);
      RemainsOn(start.inb, here.inb, sock.link.inb);
    }
    match result
    case MsgError => r := ClientError;
    case MsgTermination => r := ClientTermination;
    case MsgHung => r := ClientHung;
    case _ => r := ClientSuccess;
  }

  lemma NothingUsed(l: Link)
    ensures Explains(MsgSuccess, l, l)
  {
    UsedNone(l.picks);
    UsedNone(l.wpicks);
  }

  function Frames(payloads: seq<seq<byte>>): seq<byte>
    requires forall k :: 0 <= k < |payloads| ==> |payloads[k]| < TWO_32
  {
    if payloads == [] then [] else Frame(payloads[0]) + Frames(payloads[1..])
  }

  function Counts(payloads: seq<seq<byte>>): seq<byte>
    requires forall k :: 0 <= k < |payloads| ==> |payloads[k]| < TWO_32
  {
    if payloads == [] then [] else Be32(|payloads[0]|) + Counts(payloads[1..])
  }

  /** A complete frame is consumed exactly, 4 + n bytes, and answered with n. */
  lemma OneFrame(payload: seq<byte>, more: seq<byte>, ended: bool, unset: seq<byte>)
    requires |payload| < TWO_32 && |unset| == 4
    ensures OneToOne(Frame(payload) + more, ended, unset) == Exchange(MsgSuccess, 4 + |payload|, Be32(|payload|))
    ensures (Frame(payload) + more)[4 + |payload|..] == more
  {
    var inb := Frame(payload) + more;
    assert inb[..4] + unset[4..] == Be32(|payload|);
    Be32RoundTrip(|payload|);
  }

  /**
   Pipelining: any number of frames sent back to back is answered with their lengths in order; nothing is
   left over, and the client is let go exactly when it has closed.
   */
  lemma {:induction false} PipelinedFrames(payloads: seq<seq<byte>>, ended: bool, unset: seq<byte>)
    requires forall k :: 0 <= k < |payloads| ==> |payloads[k]| < TWO_32
    requires |unset| == 4
    ensures Serve(Frames(payloads), ended, unset)
         == Session(if ended then ClientSuccess else ClientHung, [], Counts(payloads))
    decreases |payloads|
  {
    if payloads != [] {
      OneFrame(payloads[0], Frames(payloads[1..]), ended, unset);
      PipelinedFrames(payloads[1..], ended, unset);
    }
  }

  /** The replies, octet by octet: the k-th four spell the k-th length. */
  lemma {:induction false} CountsOctets(payloads: seq<seq<byte>>, k: nat)
    requires forall i :: 0 <= i < |payloads| ==> |payloads[i]| < TWO_32
    requires k < |payloads|
    ensures |Counts(payloads)| == 4 * |payloads|
    ensures Spell32(Counts(payloads)[4 * k..4 * k + 4], |payloads[k]|)
  {
    hide Be32, Spell32;
    Octets(0, |payloads[0]|);
    CountsLength(payloads[1..]);
    var all, rest := Counts(payloads), Counts(payloads[1..]);
    if k == 0 {
      assert all[0..4] == Be32(|payloads[0]|);
    } else {
      CountsOctets(payloads[1..], k - 1);
      assert all[4 * k..4 * k + 4] == rest[4 * (k - 1)..4 * (k - 1) + 4];
    }
  }

  lemma {:induction false} CountsLength(payloads: seq<seq<byte>>)
    requires forall i :: 0 <= i < |payloads| ==> |payloads[i]| < TWO_32
    ensures |Counts(payloads)| == 4 * |payloads|
  {
    if payloads != [] {
      CountsLength(payloads[1..]);
    }
  }
}
