/**
 One end of a stream socket, and the two loops that hide short reads and short writes.
 How a stream is cut into pieces is decided by the kernel: `picks` is its script for reads and `wpicks`
 for writes. A call moves as many bytes as the script says, within what it may; where the script has run
 out it moves all it can. Quantifying over scripts is quantifying over all fragmentations.
 */
module Wire {
  import opened Bytes

  /** How one call turns out: up to `count` bytes, interrupted by a signal, or failed. */
  datatype Pick = Piece(count: nat) | Interrupt | Failure

  datatype Link = Link(
    inb: seq<byte>,      // sent by the peer, not received yet
    ended: bool,         // the peer sends nothing after `inb`
    picks: seq<Pick>,
    outb: seq<byte>,     // sent to the peer
    wpicks: seq<Pick>)

  /** What a read returns. `Stalled`: the call waits for a peer that sends nothing more and does not close. */
  datatype Got = Data(bytes: seq<byte>) | End | Fault(eintr: bool) | Stalled

  predicate NoFaults(picks: seq<Pick>) {
    forall k :: 0 <= k < |picks| ==> picks[k].Piece?
  }

  /** No read and no write on this link will be interrupted or fail. */
  predicate Sound(l: Link) {
    NoFaults(l.picks) && NoFaults(l.wpicks)
  }

  function Within(x: nat, low: nat, high: nat): nat
    requires low <= high
  {
    if x < low then low else if x > high then high else x
  }

  /** read, or recv without flags: between one byte and `max`, as soon as anything is there. */
  function Recv(l: Link, max: nat): (r: (Got, Link))
    requires max > 0
    ensures r.0.Data? ==> 1 <= |r.0.bytes| <= max && l.inb == r.0.bytes + r.1.inb
    ensures !r.0.Data? ==> r.1.inb == l.inb
    ensures NoFaults(l.picks) ==> !r.0.Fault? && NoFaults(r.1.picks)
    ensures r.0.End? ==> l.inb == [] && l.ended
    ensures r.0.Stalled? ==> l.inb == [] && !l.ended
    ensures r.0.End? || r.0.Stalled? ==> r.1 == l
    ensures r.1.ended == l.ended && r.1.outb == l.outb && r.1.wpicks == l.wpicks
    ensures |r.1.inb| + |r.1.picks| < |l.inb| + |l.picks| || r.0.End? || r.0.Stalled?
  {
    if l.picks != [] && !l.picks[0].Piece? then (Fault(l.picks[0].Interrupt?), l.(picks := l.picks[1..]))
    else if l.inb == [] then (if l.ended then End else Stalled, l)
    else
      var limit := if max < |l.inb| then max else |l.inb|;
      var n := if l.picks == [] then limit else Within(l.picks[0].count, 1, limit);
      (Data(l.inb[..n]), l.(inb := l.inb[n..], picks := if l.picks == [] then [] else l.picks[1..]))
  }

  /** recv with MSG_WAITALL: `max` bytes, or what there is when the peer has ended. */
  function RecvAll(l: Link, max: nat): (r: (Got, Link))
    requires max > 0
    ensures r.0.Data? ==> 1 <= |r.0.bytes| <= max && l.inb == r.0.bytes + r.1.inb
    ensures NoFaults(l.picks) ==> !r.0.Fault? && NoFaults(r.1.picks)
    ensures r.1.ended == l.ended && r.1.outb == l.outb && r.1.wpicks == l.wpicks
  {
    if l.picks != [] && !l.picks[0].Piece? then (Fault(l.picks[0].Interrupt?), l.(picks := l.picks[1..]))
    else if |l.inb| >= max then (Data(l.inb[..max]), l.(inb := l.inb[max..]))
    else if !l.ended then (Stalled, l)
    else if l.inb == [] then (End, l)
    else (Data(l.inb), l.(inb := []))
  }

  datatype Put = Sent(count: nat) | WriteFault

  /** write, or send: some first part of the data, possibly none of it. */
  function Send(l: Link, data: seq<byte>): (r: (Put, Link))
    requires data != []
    ensures r.0.Sent? ==> r.0.count <= |data| && r.1.outb == l.outb + data[..r.0.count]
    ensures |r.1.wpicks| <= |l.wpicks|
    ensures r.0.Sent? ==> r.0.count > 0 || |r.1.wpicks| < |l.wpicks|
    ensures r.0.WriteFault? ==> r.1.outb == l.outb
    ensures NoFaults(l.wpicks) ==> r.0.Sent? && NoFaults(r.1.wpicks)
    ensures r.1.ended == l.ended && r.1.inb == l.inb && r.1.picks == l.picks
  {
    if l.wpicks == [] then (Sent(|data|), l.(outb := l.outb + data))
    else if !l.wpicks[0].Piece? then (WriteFault, l.(wpicks := l.wpicks[1..]))
    else
      var n := Within(l.wpicks[0].count, 0, |data|);
      (Sent(n), l.(outb := l.outb + data[..n], wpicks := l.wpicks[1..]))
  }

  /* ---- what calls have used up of a script ---- */

  /** Between the two scripts lie pieces only: no call failed or was interrupted. */
  predicate Clean(before: seq<Pick>, after: seq<Pick>) {
    if |before| <= |after| then before == after else before[0].Piece? && Clean(before[1..], after)
  }

  /** As Clean, and no call moved nothing. */
  predicate Moving(before: seq<Pick>, after: seq<Pick>) {
    if |before| <= |after| then before == after
    else before[0].Piece? && before[0].count > 0 && Moving(before[1..], after)
  }

  /** The last call used up `p`, and those before it pieces. */
  predicate StruckBy(before: seq<Pick>, after: seq<Pick>, p: Pick) {
    Clean(before, [p] + after)
  }

  predicate StoppedBy(before: seq<Pick>, after: seq<Pick>, p: Pick) {
    Moving(before, [p] + after)
  }

  lemma UsedNone(a: seq<Pick>)
    ensures Clean(a, a) && Moving(a, a)
  {
  }

  lemma {:induction false} UsedMore(a: seq<Pick>, b: seq<Pick>, c: seq<Pick>)
    ensures Clean(a, b) && Clean(b, c) ==> Clean(a, c)
    ensures Moving(a, b) && Moving(b, c) ==> Moving(a, c)
  {
    if |a| > |b| {
      UsedMore(a[1..], b, c);
      LongerClean(b, c);
    }
  }

  lemma {:induction false} LongerClean(a: seq<Pick>, b: seq<Pick>)
    ensures Clean(a, b) || Moving(a, b) ==> |a| >= |b|
  {
    if |a| > |b| {
      LongerClean(a[1..], b);
    }
  }

  lemma UsedLast(a: seq<Pick>, b: seq<Pick>, c: seq<Pick>, p: Pick)
    ensures Clean(a, b) && StruckBy(b, c, p) ==> StruckBy(a, c, p)
    ensures Moving(a, b) && StoppedBy(b, c, p) ==> StoppedBy(a, c, p)
  {
    UsedMore(a, b, [p] + c);
  }

  /** What was used up last tells how: a fault is no piece, and an empty piece moved nothing. */
  lemma {:induction false} LastUsed(a: seq<Pick>, b: seq<Pick>, p: Pick)
    requires StruckBy(a, b, p) || StoppedBy(a, b, p)
    ensures |b| < |a| && a[|a| - |b| - 1] == p
    ensures !p.Piece? ==> !Clean(a, b)
    ensures !p.Piece? || p.count == 0 ==> !Moving(a, b)
  {
    if |a| > |b| + 1 {
      LastUsed(a[1..], b, p);
    } else {
      assert a == [p] + b && a[1..] == b;
    }
  }

  lemma UsedOne(a: seq<Pick>)
    requires a != []
    ensures a[0].Piece? ==> Clean(a, a[1..])
    ensures a[0].Piece? && a[0].count > 0 ==> Moving(a, a[1..])
    ensures !a[0].Piece? ==> StruckBy(a, a[1..], a[0])
    ensures StoppedBy(a, a[1..], a[0])
  {
    assert [a[0]] + a[1..] == a;
  }

  lemma ReadUses(l: Link, max: nat)
    requires max > 0
    ensures var (got, l') := Recv(l, max);
            match got
            case Fault(eintr) => StruckBy(l.picks, l'.picks, if eintr then Interrupt else Failure)
            case _ => Clean(l.picks, l'.picks)
    ensures var (got, l') := RecvAll(l, max);
            match got
            case Fault(eintr) => StruckBy(l.picks, l'.picks, if eintr then Interrupt else Failure)
            case _ => Clean(l.picks, l'.picks)
  {
    hide Clean, StruckBy, Moving, StoppedBy;
    UsedNone(l.picks);
    if l.picks != [] {
      UsedOne(l.picks);
    }
  }

  lemma SendUses(l: Link, data: seq<byte>)
    requires data != []
    ensures var (put, l') := Send(l, data);
            match put
            case WriteFault => StoppedBy(l.wpicks, l'.wpicks, Interrupt) || StoppedBy(l.wpicks, l'.wpicks, Failure)
            case Sent(n) => if n == 0 then StoppedBy(l.wpicks, l'.wpicks, Piece(0)) else Moving(l.wpicks, l'.wpicks)
  {
    hide Clean, StruckBy, Moving, StoppedBy;
    UsedNone(l.wpicks);
    if l.wpicks != [] {
      UsedOne(l.wpicks);
    }
  }

  /** A process's descriptor for one end of a stream. */
  class Socket {
    var link: Link

    constructor (link: Link)
      ensures this.link == link
    {
      this.link := link;
    }

    method Read(max: nat) returns (got: Got)
      requires max > 0
      modifies this
      ensures (got, link) == Recv(old(link), max)
    {
      var r := Recv(link, max);
      got, link := r.0, r.1;
    }

    method ReadAll(max: nat) returns (got: Got)
      requires max > 0
      modifies this
      ensures (got, link) == RecvAll(old(link), max)
    {
      var r := RecvAll(link, max);
      got, link := r.0, r.1;
    }

    method Write(data: seq<byte>) returns (put: Put)
      requires data != []
      modifies this
      ensures (put, link) == Send(old(link), data)
    {
      var r := Send(link, data);
      put, link := r.0, r.1;
    }
  }

  /** How a loop over a stream ends; `Hung`: never. */
  datatype Outcome = Done | Failed | Hung

  /**
   All of the data goes out in order, whatever the lengths of the single writes. If a write fails, a first
   part of the data is out and the result says so.
   */
  function Written(l: Link, data: seq<byte>): (r: (Outcome, Link))
    ensures r.0.Done? || r.0.Failed?
    ensures r.0.Done? ==> r.1.outb == l.outb + data
    ensures NoFaults(l.wpicks) ==> r.0.Done? && NoFaults(r.1.wpicks)
    ensures r.1.ended == l.ended && r.1.inb == l.inb && r.1.picks == l.picks
    decreases |data| + |l.wpicks|
  {
    if data == [] then (Done, l)
    else
      var (put, l') := Send(l, data);
      if put.WriteFault? then (Failed, l') else Written(l', data[put.count..])
  }

  /** A failed write leaves a proper first part of the data on the stream. */
  lemma {:induction false} FailedLeavesPrefix(l: Link, data: seq<byte>)
    requires Written(l, data).0.Failed?
    ensures exists k: nat :: k < |data| && Written(l, data).1.outb == l.outb + data[..k]
    decreases |data| + |l.wpicks|
  {
    hide Send, NoFaults;
    var (put, l') := Send(l, data);
    if put.WriteFault? {
      assert l'.outb == l.outb + data[..0];
    } else {
      var n, rest := put.count, data[put.count..];
      assert Written(l, data) == Written(l', rest);
      hide Written;
      FailedLeavesPrefix(l', rest);
      var k: nat :| k < |rest| && Written(l', rest).1.outb == l'.outb + rest[..k];
      PrefixOn(l.outb, data, n, k);
    }
  }

  lemma PrefixOn(out: seq<byte>, data: seq<byte>, n: nat, k: nat)
    requires n + k <= |data|
    ensures out + data[..n] + data[n..][..k] == out + data[..n + k]
  {
    assert data[..n] + data[n..][..k] == data[..n + k];
  }

  /** It fails exactly if a write does: the last entry of the script that it used says so. */
  lemma {:induction false} WrittenUses(l: Link, data: seq<byte>)
    ensures var (r, l') := Written(l, data);
            match r
            case Done => Clean(l.wpicks, l'.wpicks)
            case Failed => StruckBy(l.wpicks, l'.wpicks, Interrupt) || StruckBy(l.wpicks, l'.wpicks, Failure)
            case Hung => false
    decreases |data| + |l.wpicks|
  {
    hide Clean, StruckBy;
    UsedNone(l.wpicks);
    if data != [] {
      var (put, l') := Send(l, data);
      SendCleanly(l, data);
      if put.Sent? {
        var rest := data[put.count..];
        WrittenUses(l', rest);
        var after := Written(l', rest).1.wpicks;
        UsedMore(l.wpicks, l'.wpicks, after);
        UsedLast(l.wpicks, l'.wpicks, after, Interrupt);
        UsedLast(l.wpicks, l'.wpicks, after, Failure);
      }
    }
  }

  lemma SendCleanly(l: Link, data: seq<byte>)
    requires data != []
    ensures var (put, l') := Send(l, data);
            match put
            case WriteFault => StruckBy(l.wpicks, l'.wpicks, Interrupt) || StruckBy(l.wpicks, l'.wpicks, Failure)
            case Sent(_) => Clean(l.wpicks, l'.wpicks)
  {
    hide Clean, StruckBy, Moving, StoppedBy;
    UsedNone(l.wpicks);
    if l.wpicks != [] {
      UsedOne(l.wpicks);
    }
  }

  method WriteFully(sock: Socket, data: seq<byte>) returns (r: Outcome)
    modifies sock
    ensures (r, sock.link) == Written(old(sock.link), data)
  {
    var nwrote := 0;
    ghost var start := sock.link;
    while nwrote < |data|
      invariant 0 <= nwrote <= |data|
      invariant Written(start, data) == Written(sock.link, data[nwrote..])
      decreases |data| - nwrote + |sock.link.wpicks|
    {
      ghost var here := sock.link;
      var put := sock.Write(data[nwrote..]);
      if put.WriteFault? {
        return Failed;
      }
      assert data[nwrote..][put.count..] == data[nwrote + put.count..];
      nwrote := nwrote + put.count;
    }
    r := Done;
  }

  /** The last read was interrupted or failed, and those before it were not. */
  predicate ReadFailed(before: seq<Pick>, after: seq<Pick>) {
    StruckBy(before, after, Interrupt) || StruckBy(before, after, Failure)
  }

  /**
   Fill the first `size` places of the buffer, whatever the lengths of the single reads. On a stream that
   is cut short the loop never ends: a read of nothing makes no progress.
   */
  method ReadFully(sock: Socket, data: array<byte>, size: nat) returns (r: Outcome)
    requires size <= data.Length
    modifies sock, data
    ensures NoFaults(old(sock.link.picks)) ==> (r.Done? <==> |old(sock.link.inb)| >= size) && !r.Failed?
    ensures r.Done? ==>
              && |old(sock.link.inb)| >= size
              && data[..] == old(sock.link.inb)[..size] + old(data[..])[size..]
              && sock.link.inb == old(sock.link.inb)[size..]
              && sock.link.outb == old(sock.link.outb) && sock.link.wpicks == old(sock.link.wpicks)
              && sock.link.ended == old(sock.link.ended)
    ensures NoFaults(old(sock.link.picks)) ==> NoFaults(sock.link.picks)
    ensures match r
            case Done => Clean(old(sock.link.picks), sock.link.picks)
            case Failed => ReadFailed(old(sock.link.picks), sock.link.picks)
            case Hung =>
              Clean(old(sock.link.picks), sock.link.picks) && sock.link.inb == [] && |old(sock.link.inb)| < size
  {
    hide Recv, Clean, StruckBy, NoFaults;
    UsedNone(sock.link.picks);
    var nread := 0;
    ghost var start, was := sock.link, data[..];
    while nread < size
      invariant 0 <= nread <= size && nread <= |start.inb|
      invariant forall i :: 0 <= i < nread ==> data[i] == start.inb[i]
      invariant forall i :: nread <= i < data.Length ==> data[i] == was[i]
      invariant sock.link.inb == start.inb[nread..]
      invariant sock.link.outb == start.outb && sock.link.wpicks == start.wpicks && sock.link.ended == start.ended
      invariant NoFaults(start.picks) ==> NoFaults(sock.link.picks)
      invariant Clean(start.picks, sock.link.picks)
      decreases |sock.link.inb| + |sock.link.picks|
    {
      ghost var picks := sock.link.picks;
      ReadUses(sock.link, size - nread);
      var got := sock.Read(size - nread);
      UsedMore(start.picks, picks, sock.link.picks);
      UsedLast(start.picks, picks, sock.link.picks, Interrupt);
      UsedLast(start.picks, picks, sock.link.picks, Failure);
      match got
      case Fault(_) => return Failed;
      case End => return Hung;
      case Stalled => return Hung;
      case Data(bytes) =>
        Consumed(start.inb, nread, bytes, sock.link.inb);
        forall i | 0 <= i < |bytes| {
          data[nread + i] := bytes[i];
        }
        nread := nread + |bytes|;
    }
    assert data[..] == start.inb[..size] + was[size..];
    r := Done;
  }

  /** Taking the next bytes off what is left of a stream. */
  lemma Consumed(all: seq<byte>, at: nat, bytes: seq<byte>, left: seq<byte>)
    requires at <= |all| && all[at..] == bytes + left
    ensures at + |bytes| <= |all| && left == all[at + |bytes|..]
    ensures forall i :: 0 <= i < |bytes| ==> bytes[i] == all[at + i]
  {
    assert |all[at..]| == |bytes| + |left|;
    forall i | 0 <= i < |bytes| ensures bytes[i] == all[at + i] {
      assert all[at..][i] == (bytes + left)[i];
    }
    forall i | 0 <= i < |left| ensures left[i] == all[at + |bytes| + i] {
      assert all[at..][|bytes| + i] == (bytes + left)[|bytes| + i];
    }
  }

  /* ---- several blocks ---- */

  function Concat(blocks: seq<seq<byte>>): seq<byte> {
    if blocks == [] then [] else blocks[0] + Concat(blocks[1..])
  }

  /** Writing block after block, each one attempted whatever became of those before it. */
  function WrittenEach(l: Link, blocks: seq<seq<byte>>): (r: (bool, Link))
    ensures r.1.ended == l.ended && r.1.inb == l.inb && r.1.picks == l.picks
    decreases |blocks|
  {
    if blocks == [] then (true, l)
    else
      var (first, l') := Written(l, blocks[0]);
      var (others, l'') := WrittenEach(l', blocks[1..]);
      (first.Done? && others, l'')
  }

  /** When no write fails the peer is sent all blocks, in order and without gaps; without faults none fails. */
  lemma {:induction false} EachArrives(l: Link, blocks: seq<seq<byte>>)
    ensures WrittenEach(l, blocks).0 ==> WrittenEach(l, blocks).1.outb == l.outb + Concat(blocks)
    ensures NoFaults(l.wpicks) ==> WrittenEach(l, blocks).0 && NoFaults(WrittenEach(l, blocks).1.wpicks)
    decreases |blocks|
  {
    if blocks == [] {
      assert l.outb + [] == l.outb;
    } else {
      EachArrives(Written(l, blocks[0]).1, blocks[1..]);
      assert l.outb + blocks[0] + Concat(blocks[1..]) == l.outb + Concat(blocks);
    }
  }

  function Sizes(blocks: seq<seq<byte>>): seq<nat> {
    seq(|blocks|, i requires 0 <= i < |blocks| => |blocks[i]|)
  }

  /** Fill blocks of the given sizes from the stream, one read_fully after the other; nothing if it is too short. */
  method ReadEach(sock: Socket, sizes: seq<nat>) returns (r: Outcome, blocks: seq<seq<byte>>)
    modifies sock
    ensures r.Done? ==> Sizes(blocks) == sizes && old(sock.link.inb) == Concat(blocks) + sock.link.inb
    ensures NoFaults(old(sock.link.picks)) ==> (r.Done? <==> Total(sizes) <= |old(sock.link.inb)|)
  {
    blocks := [];
    ghost var start := sock.link;
    var k := 0;
    while k < |sizes|
      invariant 0 <= k <= |sizes| && Sizes(blocks) == sizes[..k]
      invariant start.inb == Concat(blocks) + sock.link.inb
      invariant NoFaults(start.picks) ==> NoFaults(sock.link.picks)
      invariant Total(sizes[k..]) + |start.inb| == Total(sizes) + |sock.link.inb|
    {
      ghost var here := sock.link.inb;
      var buffer := new byte[sizes[k]];
      assert sizes[k..][1..] == sizes[k + 1..] && Total(sizes[k..]) == sizes[k] + Total(sizes[k + 1..]);
      r := ReadFully(sock, buffer, sizes[k]);
      if !r.Done? {
        return;
      }
      var block := buffer[..];
      assert here == block + sock.link.inb;
      ConcatPush(blocks, block);
      assert start.inb == Concat(blocks + [block]) + sock.link.inb;
      blocks := blocks + [block];
      k := k + 1;
    }
    assert sizes[k..] == [] && sizes[..k] == sizes;
    r := Done;
  }

  function Total(sizes: seq<nat>): nat {
    if sizes == [] then 0 else sizes[0] + Total(sizes[1..])
  }

  lemma {:induction false} ConcatPush(blocks: seq<seq<byte>>, last: seq<byte>)
    ensures Concat(blocks + [last]) == Concat(blocks) + last
    decreases |blocks|
  {
    if blocks != [] {
      ConcatPush(blocks[1..], last);
      assert (blocks + [last])[1..] == blocks[1..] + [last];
    }
  }

  /** Blocks are determined by their concatenation and their sizes. */
  lemma {:induction false} CutOnce(a: seq<seq<byte>>, b: seq<seq<byte>>, x: seq<byte>, y: seq<byte>)
    requires Sizes(a) == Sizes(b) && Concat(a) + x == Concat(b) + y
    ensures a == b && x == y
    decreases |a|
  {
    assert |a| == |Sizes(a)| == |b|;
    if a == [] {
      assert x == [] + x == [] + y == y;
    } else {
      assert |a[0]| == Sizes(a)[0] == |b[0]|;
      var s := Concat(a) + x;
      assert s == a[0] + (Concat(a[1..]) + x);
      assert s == b[0] + (Concat(b[1..]) + y);
      assert a[0] == s[..|a[0]|] == b[0];
      assert s[|a[0]|..] == Concat(a[1..]) + x == Concat(b[1..]) + y;
      assert Sizes(a[1..]) == Sizes(a)[1..] == Sizes(b)[1..] == Sizes(b[1..]);
      CutOnce(a[1..], b[1..], x, y);
    }
  }

  /** A whole stream has as many bytes as its blocks. */
  lemma {:induction false} TotalIs(blocks: seq<seq<byte>>)
    ensures Total(Sizes(blocks)) == |Concat(blocks)|
    decreases |blocks|
  {
    if blocks != [] {
      assert Sizes(blocks)[1..] == Sizes(blocks[1..]);
      TotalIs(blocks[1..]);
    }
  }

  /** Block after block through write_fully, the next one attempted even if one fails. */
  method WriteEach(sock: Socket, blocks: seq<seq<byte>>) returns (ok: bool)
    modifies sock
    ensures (ok, sock.link) == WrittenEach(old(sock.link), blocks)
  {
    hide Written;
    ok := true;
    ghost var all := WrittenEach(sock.link, blocks);
    var k := 0;
    while k < |blocks|
      invariant 0 <= k <= |blocks|
      invariant var rest := WrittenEach(sock.link, blocks[k..]);
                all == (ok && rest.0, rest.1)
    {
      assert blocks[k..][0] == blocks[k] && blocks[k..][1..] == blocks[k + 1..];
      var r := WriteFully(sock, blocks[k]);
      ok := ok && r.Done?;
      k := k + 1;
    }
  }

  /**
   The two loops compose: blocks written with write_fully on one end and read with read_fully in the same
   sizes on the other come out the same, in order, with nothing left, under any schedules of short writes
   and short reads; and both loops end.
   */
  method LoopsCompose(wpicks: seq<Pick>, picks: seq<Pick>, blocks: seq<seq<byte>>)
    returns (r: Outcome, got: seq<seq<byte>>, left: seq<byte>)
    requires NoFaults(wpicks) && NoFaults(picks)
    ensures r == Done && got == blocks && left == []
  {
    var writer := new Socket(Link([], false, [], [], wpicks));
    EachArrives(writer.link, blocks);
    var ok := WriteEach(writer, blocks);
    assert writer.link.outb == Concat(blocks) + [];
    var reader := new Socket(Link(writer.link.outb, false, picks, [], []));
    var sizes := Sizes(blocks);
    TotalIs(blocks);
    r, got := ReadEach(reader, sizes);
    left := reader.link.inb;
    CutOnce(got, blocks, left, []);
  }
}
