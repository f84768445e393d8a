/** The client's endless cycle: connect, send one framed request, read the count, log it, close. */
module LoadClient {
  import opened Bytes
  import opened Wire
  import opened Framing
  import opened ChunkFraming

  /** The first half of the cycle: the size, then the data. */
  method Request(sock: Socket, data: seq<byte>) returns (r: Outcome)
    requires |data| < TWO_32
    modifies sock
    ensures r.Done? ==>
              sock.link == old(sock.link).(outb := old(sock.link.outb) + Frame(data), wpicks := sock.link.wpicks)
    ensures NoFaults(old(sock.link.wpicks)) ==> r.Done? && NoFaults(sock.link.wpicks)
  {
    hide Written, Send;
    ghost var start := sock.link;
    r := WriteFully(sock, Be32(|data|));
    if !r.Done? {
      return;
    }
    r := WriteFully(sock, data);
    if r.Done? {
      assert sock.link.outb == start.outb + Frame(data);
    }
  }

  /** The second half: the count that the server sends back. */
  method Response(sock: Socket) returns (r: Outcome, serverResp: uint32)
    modifies sock
    ensures r.Done? ==>
              && |old(sock.link.inb)| >= 4
              && Spell32(old(sock.link.inb)[..4], serverResp)
              && sock.link.inb == old(sock.link.inb)[4..] && sock.link.outb == old(sock.link.outb)
    ensures NoFaults(old(sock.link.picks)) ==> (r.Done? <==> |old(sock.link.inb)| >= 4)
  {
    serverResp := 0;
    var buffer := new byte[4];
    ghost var start := sock.link;
    r := ReadFully(sock, buffer, 4);
    if r.Done? {
      assert buffer[..] == start.inb[..4];
      serverResp := FromBe32(buffer[..]);
    }
  }

  /** One turn of the cycle on a fresh connection, from the header to the reply. */
  method Cycle(sock: Socket, data: seq<byte>) returns (r: Outcome, serverResp: uint32)
    requires |data| < TWO_32
    modifies sock
    ensures r.Done? ==>
              && sock.link.outb == old(sock.link.outb) + Frame(data)
              && |old(sock.link.inb)| >= 4
              && Spell32(old(sock.link.inb)[..4], serverResp)
              && sock.link.inb == old(sock.link.inb)[4..]
    ensures Sound(old(sock.link)) ==> (r.Done? <==> |old(sock.link.inb)| >= 4)
  {
    serverResp := 0;
    r := Request(sock, data);
    if r.Done? {
      r, serverResp := Response(sock);
    }
  }

  lemma Spell32Once(bs: seq<byte>, m: int, n: int)
    requires Spell32(bs, m) && Spell32(bs, n)
    ensures m == n
  {
  }

  /* ---- against the servers ---- */

  datatype Server = OneToOneServer | PollServer | ProcessServer

  /**
   What a server must be granted to answer: no faults and, where it reads the header and sends the reply with
   a single call each, that these move all four octets.
   */
  predicate Grants(kind: Server, l: Link) {
    && NoFaults(l.picks)
    && match kind
       case OneToOneServer => Eager(l.wpicks)
       case _ => HeaderPiece(l) == 4 && ReplyPiece(l) == 4
  }

  lemma GrantsAnyway(kind: Server, l: Link, inb: seq<byte>)
    requires Grants(kind, l)
    ensures Grants(kind, l.(inb := inb))
  {
  }

  /** The server's turn on a connection whose stream holds one request. */
  method Answer(kind: Server, sock: Socket, data: seq<byte>, unset: seq<byte>)
    requires |data| < TWO_32 && |unset| == 4
    requires sock.link.inb == Frame(data) && Grants(kind, sock.link)
    modifies sock
    ensures sock.link.outb == old(sock.link.outb) + Be32(|data|)
  {
    hide Drain, Recv, Send, OneToOne, PollReception, ChildReception, Replied;
    hide Be32, NoFaults, Eager, HeaderPiece, ReplyPiece;
    match kind {
      case OneToOneServer =>
        assert Frame(data) + [] == Frame(data);
        OneFrame(data, [], sock.link.ended, unset);
        var r := ReceiveMessage(sock, unset);
      case PollServer =>
        ServedIffWhole(sock.link, data, unset);
        var r := PollRecvAndLog(sock, unset);
      case ProcessServer =>
        ServedIffWhole(sock.link, data, unset);
        var r := ChildReceiveRespond(sock, unset);
    }
  }

  /**
   A whole exchange with each of the servers, under any fragmentation that `Grants` allows on the server's
   side and any without faults on the client's: the logged `server_resp` is `data_size`.
   */
  method Exchanged(kind: Server, wpicks: seq<Pick>, picks: seq<Pick>, server: Link, data: seq<byte>, unset: seq<byte>)
    returns (r: Outcome, serverResp: uint32)
    requires |data| < TWO_32 && |unset| == 4
    requires NoFaults(wpicks) && NoFaults(picks)
    requires server.inb == [] && server.outb == [] && Grants(kind, server)
    ensures r == Done && serverResp == |data|
  {
    hide Recv, Send, NoFaults, FromBe32, Be32, Spell32, Frame, Grants;
    var client := new Socket(Link([], false, picks, [], wpicks));
    r := Request(client, data);
    assert [] + Frame(data) == Frame(data);
    var accepted := new Socket(server.(inb := client.link.outb));
    assert Grants(kind, accepted.link) by { GrantsAnyway(kind, server, client.link.outb); }
    Answer(kind, accepted, data, unset);
    assert [] + Be32(|data|) == Be32(|data|);
    client.link := client.link.(inb := accepted.link.outb);
    r, serverResp := Response(client);
    Octets(0, |data|);
    assert Be32(|data|)[..4] == Be32(|data|);
    Spell32Once(Be32(|data|), serverResp, |data|);
  }
}
