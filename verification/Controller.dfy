/**
 The controller's commands to its clients: START (1), then port, server IP and data, the last two after
 their sizes, and later STOP (2), all integers in network order. The controller writes to many connections
 field by field; the client decodes field by field; both go through the loops of module Wire.
 */
module Controller {
  import opened Bytes
  import opened Wire

  const START: uint16 := 1
  const STOP: uint16 := 2

  /** What the controller tells every client: the server's port and address, and the data to send there. */
  datatype Job = Job(port: uint16, ip: seq<byte>, data: seq<byte>) {
    /** The IP is a C string whose length with its terminator fits the size field; so does the data's. */
    predicate Valid() {
      0 !in ip && |ip| + 1 < TWO_32 && |data| < TWO_32
    }
  }

  /** send_data's five fields. The string goes out with its terminating zero. */
  function Fields(job: Job): (r: seq<seq<byte>>)
    requires job.Valid()
  {
    [Be16(job.port), Be32(|job.ip| + 1), job.ip + [0], Be32(|job.data|), job.data]
  }

  function Encode(job: Job): seq<byte>
    requires job.Valid()
  {
    Be16(job.port) + (Be32(|job.ip| + 1) + (job.ip + [0] + (Be32(|job.data|) + job.data)))
  }

  lemma FieldsAreEncoding(job: Job)
    requires job.Valid()
    ensures Concat(Fields(job)) == Encode(job)
  {
    var f := Fields(job);
    var f1: seq<seq<byte>> := [f[1], f[2], f[3], f[4]];
    var f2: seq<seq<byte>> := [f[2], f[3], f[4]];
    var f3: seq<seq<byte>> := [f[3], f[4]];
    var f4: seq<seq<byte>> := [f[4]];
    assert f[1..] == f1 && f1[1..] == f2 && f2[1..] == f3 && f3[1..] == f4;
    assert Concat(f4) == job.data + Concat([]) == job.data;
    assert Concat(f3) == f[3] + Concat(f4);
    assert Concat(f2) == f[2] + Concat(f3);
    assert Concat(f1) == f[1] + Concat(f2);
    assert Concat(f) == f[0] + Concat(f1);
  }

  /** The two commands as octets. */
  lemma CommandOctets()
    ensures Be16(START) == [0, 1] && Be16(STOP) == [0, 2]
  {
  }

  /** A job as octets: the port's two, high first, then the size of the IP with its zero, and so on. */
  lemma EncodedOctets(job: Job)
    requires job.Valid()
    ensures var e, n, m := Encode(job), |job.ip| + 1, |job.data|;
            && |e| == 2 + 4 + n + 4 + m
            && Spell16(e[..2], job.port)
            && Spell32(e[2..6], n) && e[6..6 + n] == job.ip + [0]
            && Spell32(e[6 + n..10 + n], m) && e[10 + n..] == job.data
  {
    Octets(job.port, |job.ip| + 1);
    Octets(job.port, |job.data|);
    hide Be16, Be32, Spell16, Spell32;
    var e, n := Encode(job), |job.ip| + 1;
    assert e[..2] == Be16(job.port) && e[2..6] == Be32(n) && e[6..6 + n] == job.ip + [0];
    assert e[6 + n..10 + n] == Be32(|job.data|);
  }

  /* ---- the controller ---- */

  class Connections {
    var fds: seq<Socket>
    var started: bool

    constructor (fds: seq<Socket>)
      ensures this.fds == fds && !started
    {
      this.fds, this.started := fds, false;
    }

    ghost predicate Valid()
      reads this
    {
      forall i, j :: 0 <= i < j < |fds| ==> fds[i] != fds[j]
    }

    /** Write one block to every connection; the result is that of the last write. */
    method SendCommand(command: uint16) returns (result: int)
      requires Valid()
      modifies fds
      ensures forall i :: 0 <= i < |fds| ==> fds[i].link == Written(old(fds[i].link), Be16(command)).1
      ensures result == if |fds| == 0 || Written(old(fds[|fds| - 1].link), Be16(command)).0.Done? then 0 else -1
    {
      hide Written;
      result := 0;
      var i := 0;
      while i < |fds|
        invariant 0 <= i <= |fds|
        invariant forall j :: 0 <= j < i ==> fds[j].link == Written(old(fds[j].link), Be16(command)).1
        invariant forall j :: i <= j < |fds| ==> fds[j].link == old(fds[j].link)
        invariant result == if i == 0 || Written(old(fds[i - 1].link), Be16(command)).0.Done? then 0 else -1
      {
        var r := WriteFully(fds[i], Be16(command));
        result := if r.Done? then 0 else -1;
        i := i + 1;
      }
    }

    method SendStart() returns (result: int)
      requires Valid()
      modifies this`started, fds
      ensures started && fds == old(fds)
      ensures forall i :: 0 <= i < |fds| ==> fds[i].link == Written(old(fds[i].link), Be16(START)).1
      ensures result == if |fds| == 0 || Written(old(fds[|fds| - 1].link), Be16(START)).0.Done? then 0 else -1
    {
      result := SendCommand(START);
      started := true;
    }

    method SendStop() returns (result: int)
      requires Valid()
      modifies this`started, fds
      ensures !started && fds == old(fds)
      ensures forall i :: 0 <= i < |fds| ==> fds[i].link == Written(old(fds[i].link), Be16(STOP)).1
      ensures result == if |fds| == 0 || Written(old(fds[|fds| - 1].link), Be16(STOP)).0.Done? then 0 else -1
    {
      result := SendCommand(STOP);
      started := false;
    }

    /** send_data's turn for one connection: five writes, each attempted whatever became of those before it. */
    static method SendFields(fd: Socket, job: Job) returns (ok: bool)
      requires job.Valid()
      modifies fd
      ensures (ok, fd.link) == WrittenEach(old(fd.link), Fields(job))
    {
      hide Written, WrittenEach;
      FiveWrites(fd.link, job);
      ok := true;
      var w := WriteFully(fd, Be16(job.port));
      if w.Failed? { ok := false; }
      w := WriteFully(fd, Be32(|job.ip| + 1));
      if w.Failed? { ok := false; }
      w := WriteFully(fd, job.ip + [0]);
      if w.Failed? { ok := false; }
      w := WriteFully(fd, Be32(|job.data|));
      if w.Failed? { ok := false; }
      w := WriteFully(fd, job.data);
      if w.Failed? { ok := false; }
    }

    /**
     All five fields are attempted on every connection, in the same order, whatever happened before; the
     result is -1 exactly if some write on some connection failed.
     */
    method SendData(job: Job) returns (result: int)
      requires Valid() && job.Valid()
      modifies fds
      ensures fds == old(fds)
      ensures forall i :: 0 <= i < |fds| ==> fds[i].link == WrittenEach(old(fds[i].link), Fields(job)).1
      ensures result == if exists i :: 0 <= i < |fds| && !WrittenEach(old(fds[i].link), Fields(job)).0 then -1 else 0
    {
      hide WrittenEach, Fields;
      result := 0;
      var i := 0;
      while i < |fds|
        invariant 0 <= i <= |fds|
        invariant forall j :: 0 <= j < i ==> fds[j].link == WrittenEach(old(fds[j].link), Fields(job)).1
        invariant forall j :: i <= j < |fds| ==> fds[j].link == old(fds[j].link)
        invariant result == if exists j :: 0 <= j < i && !WrittenEach(old(fds[j].link), Fields(job)).0 then -1 else 0
      {
        var ok := SendFields(fds[i], job);
        if !ok { result := -1; }
        i := i + 1;
      }
    }
  }

  /** With two connections a START that the first does not get is reported as success: the result is the last one's. */
  method StartMissesFailure() returns (result: int, sent: seq<seq<byte>>)
    ensures result == 0 && sent == [[], [0, 1]]
  {
    CommandOctets();
    var broken := new Socket(Link([], false, [], [], [Failure]));
    var sound := new Socket(Link([], false, [], [], []));
    var both := new Connections([broken, sound]);
    assert [] + Be16(START) == Be16(START);
    result := both.SendStart();
    assert both.fds[0] == broken && both.fds[1] == sound;
    sent := [broken.link.outb, sound.link.outb];
  }

  lemma EachStep(l: Link, first: seq<byte>, others: seq<seq<byte>>)
    ensures WrittenEach(l, [first] + others)
         == (Written(l, first).0.Done? && WrittenEach(Written(l, first).1, others).0,
             WrittenEach(Written(l, first).1, others).1)
  {
    assert ([first] + others)[1..] == others;
  }

  /** WrittenEach over the five fields, written out. */
  lemma FiveWrites(l: Link, job: Job)
    requires job.Valid()
    ensures var f := Fields(job);
            var (a, l1) := Written(l, f[0]);
            var (b, l2) := Written(l1, f[1]);
            var (c, l3) := Written(l2, f[2]);
            var (d, l4) := Written(l3, f[3]);
            var (e, l5) := Written(l4, f[4]);
            WrittenEach(l, f) == (a.Done? && b.Done? && c.Done? && d.Done? && e.Done?, l5)
  {
    hide Written;
    var f := Fields(job);
    var l1 := Written(l, f[0]).1;
    var l2 := Written(l1, f[1]).1;
    var l3 := Written(l2, f[2]).1;
    var l4 := Written(l3, f[3]).1;
    EachStep(l4, f[4], []);
    EachStep(l3, f[3], [f[4]]);
    EachStep(l2, f[2], [f[3]] + [f[4]]);
    EachStep(l1, f[1], [f[2]] + ([f[3]] + [f[4]]));
    EachStep(l, f[0], [f[1]] + ([f[2]] + ([f[3]] + [f[4]])));
    assert [f[4]] + [] == [f[4]];
    assert f == [f[0]] + ([f[1]] + ([f[2]] + ([f[3]] + [f[4]])));
  }

  /** Isolation: a connection none of whose own writes failed is sent the whole encoding, whatever the others did. */
  lemma EveryIntactConnectionIsServed(l: Link, job: Job)
    requires job.Valid() && WrittenEach(l, Fields(job)).0
    ensures WrittenEach(l, Fields(job)).1.outb == l.outb + Encode(job)
  {
    EachArrives(l, Fields(job));
    FieldsAreEncoding(job);
  }

  /* ---- the client: what a stream says ---- */

  /** One command off a stream. `ip` is the client's buffer: the bytes sent and a zero after them. */
  datatype Command =
    | Start(port: uint16, ip: seq<byte>, data: seq<byte>, rest: seq<byte>)
    | Stop(rest: seq<byte>)
    | Unknown(rest: seq<byte>)
    | Short

  /** A field that follows its size. */
  datatype Sized = Sized(bytes: seq<byte>, rest: seq<byte>) | Cut

  function ParseSized(s: seq<byte>): (r: Sized)
    ensures r.Sized? ==> |r.bytes| < TWO_32 && |r.rest| < |s|
  {
    if |s| < 4 then Cut else
    var n := FromBe32(s[..4]);
    if |s| < 4 + n then Cut else Sized(s[4..][..n], s[4..][n..])
  }

  /** read_data's fields, without regard to fragmentation. */
  function ParseData(s: seq<byte>): (c: Command)
    ensures c.Start? || c.Short?
  {
    if |s| < 2 then Short else
    match ParseSized(s[2..])
    case Cut => Short
    case Sized(ip, t) =>
      match ParseSized(t)
      case Cut => Short
      case Sized(data, rest) => Start(FromBe16(s[..2]), ip + [0], data, rest)
  }

  function Parse(s: seq<byte>): Command {
    if |s| < 2 then Short else
    var command := FromBe16(s[..2]);
    if command == START then ParseData(s[2..])
    else if command == STOP then Stop(s[2..])
    else Unknown(s[2..])
  }

  /** A stream decodes to START only if it begins 0, 1; to STOP exactly if 0, 2; any other pair is unknown. */
  lemma ParseByOctets(s: seq<byte>)
    ensures Parse(s).Start? ==> |s| >= 2 && s[0] == 0 && s[1] == 1
    ensures Parse(s).Stop? <==> |s| >= 2 && s[0] == 0 && s[1] == 2
    ensures Parse(s).Unknown? <==> |s| >= 2 && (s[0] != 0 || s[1] < 1 || s[1] > 2)
    ensures Parse(s).Start? ==> |s| >= 4 && Spell16(s[2..4], Parse(s).port)
  {
    hide ParseSized;
  }

  /** The string a C buffer holds: everything before the first zero. */
  function CString(buffer: seq<byte>): seq<byte> {
    if buffer == [] || buffer[0] == 0 then [] else [buffer[0]] + CString(buffer[1..])
  }

  lemma {:induction false} CStringOf(ip: seq<byte>, more: seq<byte>)
    requires 0 !in ip
    ensures CString(ip + [0] + more) == ip
  {
    if ip == [] {
      assert ([] + [0] + more)[0] == 0;
    } else {
      CStringOf(ip[1..], more);
      var b := ip + [0] + more;
      assert b[1..] == ip[1..] + [0] + more && b[0] == ip[0] && ip[0] in ip;
    }
  }

  /** Decoding undoes encoding, and leaves exactly what came after. */
  lemma ParseEncoded(job: Job, rest: seq<byte>)
    requires job.Valid()
    ensures Parse(Be16(START) + Encode(job) + rest) == Start(job.port, job.ip + [0] + [0], job.data, rest)
    ensures CString(job.ip + [0] + [0]) == job.ip
  {
    CStringOf(job.ip, [0]);
    Be16RoundTrip(START);
    var s := Encode(job) + rest;
    var all := Be16(START) + Encode(job) + rest;
    assert all[..2] == Be16(START) && all[2..] == s;
    DataParses(job, rest);
  }

  lemma SizedParses(bytes: seq<byte>, rest: seq<byte>)
    requires |bytes| < TWO_32
    ensures ParseSized(Be32(|bytes|) + bytes + rest) == Sized(bytes, rest)
  {
    hide Be32, FromBe32;
    Be32RoundTrip(|bytes|);
    var s := Be32(|bytes|) + bytes + rest;
    assert s[..4] == Be32(|bytes|) && s[4..] == bytes + rest;
  }

  lemma DataParses(job: Job, rest: seq<byte>)
    requires job.Valid()
    ensures ParseData(Encode(job) + rest) == Start(job.port, job.ip + [0] + [0], job.data, rest)
  {
    hide ParseSized, Be32, Be16, FromBe16;
    Be16RoundTrip(job.port);
    var s := Encode(job) + rest;
    var tail := Be32(|job.data|) + job.data + rest;
    assert s[..2] == Be16(job.port);
    assert s[2..] == Be32(|job.ip + [0]|) + (job.ip + [0]) + tail;
    SizedParses(job.ip + [0], tail);
    SizedParses(job.data, rest);
  }

  lemma ParsedSized(s: seq<byte>)
    requires ParseSized(s).Sized?
    ensures var f := ParseSized(s); s == Be32(|f.bytes|) + f.bytes + f.rest
  {
    hide Be32, FromBe32;
    var n := FromBe32(s[..4]);
    Be32Injective(s[..4], n);
    assert s == s[..4] + s[4..][..n] + s[4..][n..];
  }

  /** Every START that decodes came from these bytes: nothing else decodes to it. */
  lemma EncodedParse(s: seq<byte>)
    requires Parse(s).Start?
    ensures var c := Parse(s);
            && |c.ip| >= 1 && |c.ip| - 1 < TWO_32 && |c.data| < TWO_32
            && s == Be16(START) + Be16(c.port) + Be32(|c.ip| - 1) + c.ip[..|c.ip| - 1]
                    + Be32(|c.data|) + c.data + c.rest
  {
    hide ParseSized, Be32, Be16, FromBe16, FromBe32;
    var c, t := Parse(s), s[2..][2..];
    var ip, data := ParseSized(t), ParseSized(ParseSized(t).rest);
    ParsedSized(t);
    ParsedSized(ip.rest);
    Be16Injective(s[..2], START);
    Be16Injective(s[2..][..2], c.port);
    assert c.ip[..|c.ip| - 1] == ip.bytes;
    assert s == s[..2] + s[2..][..2] + t;
  }

  lemma Be16Injective(bs: seq<byte>, n: uint16)
    requires |bs| == 2 && FromBe16(bs) == n
    ensures bs == Be16(n)
  {
  }

  /* ---- the client: the buffers for it ---- */

  /** The octets of a field as the host's own integer, before ntohl. */
  function Raw(octets: seq<byte>, littleEndian: bool): uint32
    requires |octets| == 4
  {
    FromBe32(if littleEndian then [octets[3], octets[2], octets[1], octets[0]] else octets)
  }

  /**
   The data buffer is allocated by the size as it came off the wire. It holds n bytes on a big-endian host
   always, on a little-endian one exactly if the octets of n do not grow smaller when read from the end.
   */
  lemma DataFitsIff(n: uint32, littleEndian: bool)
    ensures var b := Be32(n);
            Raw(b, littleEndian) >= n <==> !littleEndian || b[0] < b[3] || (b[0] == b[3] && b[1] <= b[2])
  {
    hide Be32;
    Be32RoundTrip(n);
  }

  /** One byte is allocated for sixteen million. */
  lemma DataDoesNotFit()
    ensures Raw(Be32(0x100_0000), true) == 1
  {
  }

  /** The buffer for the IP is allocated by size + 1 in 32 bits, which is too small for the largest size alone. */
  lemma IpFitsIff(size: uint32)
    ensures (size + 1) % TWO_32 >= size + 1 <==> size != TWO_32 - 1
  {
  }

  /* ---- the client: how it reads it ---- */

  datatype Verdict = Success | Error | Finish | Spinning

  class Client {
    const controller: Socket
    const littleEndian: bool
    var serverPort: uint16
    var serverIp: seq<byte>
    var dataSize: nat
    var data: seq<byte>
    var bufferSize: nat         // what was allocated for the data
    var runs: seq<Settings>     // what threads were started with, oldest first

    constructor (controller: Socket, littleEndian: bool)
      ensures this.controller == controller && this.littleEndian == littleEndian && runs == []
    {
      this.controller, this.littleEndian := controller, littleEndian;
      serverPort, serverIp, dataSize, data, bufferSize, runs := 0, [], 0, [], 0, [];
    }

    /** A read that failed or was interrupted, and nothing else, makes a field fail. */
    static predicate FieldUses(r: Outcome, before: seq<Pick>, after: seq<Pick>) {
      if r.Failed? then ReadFailed(before, after) else Clean(before, after)
    }

    static lemma FieldsUse(r: Outcome, a: seq<Pick>, b: seq<Pick>, c: seq<Pick>)
      requires Clean(a, b) && FieldUses(r, b, c)
      ensures FieldUses(r, a, c)
    {
      UsedMore(a, b, c);
      UsedLast(a, b, c, Interrupt);
      UsedLast(a, b, c, Failure);
    }

    method Field(size: nat) returns (r: Outcome, bytes: seq<byte>)
      modifies controller
      ensures NoFaults(old(controller.link.picks)) ==>
                && NoFaults(controller.link.picks)
                && (r.Done? <==> |old(controller.link.inb)| >= size) && !r.Failed?
      ensures r.Done? ==>
                && |old(controller.link.inb)| >= size
                && bytes == old(controller.link.inb)[..size]
                && controller.link.inb == old(controller.link.inb)[size..]
      ensures FieldUses(r, old(controller.link.picks), controller.link.picks)
    {
      var buffer := new byte[size];
      r := ReadFully(controller, buffer, size);
      bytes := buffer[..];
    }

    /** A size and as many bytes; `octets` is the size as it came off the wire. */
    method SizedField() returns (r: Outcome, octets: seq<byte>, bytes: seq<byte>)
      modifies controller
      ensures var f := ParseSized(old(controller.link.inb));
              && (r.Done? ==> f.Sized? && bytes == f.bytes && controller.link.inb == f.rest)
              && (NoFaults(old(controller.link.picks)) ==>
                    NoFaults(controller.link.picks) && !r.Failed? && (r.Done? <==> f.Sized?))
      ensures r.Done? ==> |bytes| < TWO_32 && octets == Be32(|bytes|)
      ensures FieldUses(r, old(controller.link.picks), controller.link.picks)
    {
      hide NoFaults, FromBe32, Be32, Clean, ReadFailed;
      ghost var picks := controller.link.picks;
      r, octets := Field(4);
      bytes := [];
      if r.Done? {
        ghost var here := controller.link.picks;
        r, bytes := Field(FromBe32(octets));
        FieldsUse(r, picks, here, controller.link.picks);
        if r.Done? {
          Be32Injective(octets, |bytes|);
        }
      }
    }

    /**
     Port, then IP, then data. Success means the same on any link; without faults it comes exactly if all of the
     data does. `data` is what read_fully was told to store; `bufferSize` is what was allocated for it.
     */
    method ReadData() returns (r: Verdict)
      modifies this`serverPort, this`serverIp, this`dataSize, this`data, this`bufferSize, controller
      ensures NoFaults(old(controller.link.picks)) ==>
                && NoFaults(controller.link.picks)
                && var c := ParseData(old(controller.link.inb));
                   if c.Start? then
                     && r == Success && serverPort == c.port && serverIp == c.ip
                     && dataSize == |c.data| && data == c.data && controller.link.inb == c.rest
                   else r == Spinning
      ensures r == Success ==>
                var c := ParseData(old(controller.link.inb));
                && c.Start? && serverPort == c.port && serverIp == c.ip
                && dataSize == |c.data| && data == c.data && controller.link.inb == c.rest
                && dataSize < TWO_32 && bufferSize == Raw(Be32(dataSize), littleEndian)
      ensures r != Finish
      ensures if r == Error then ReadFailed(old(controller.link.picks), controller.link.picks)
              else Clean(old(controller.link.picks), controller.link.picks)
    {
      hide NoFaults, FromBe16, ParseSized, Raw, Be32, Clean, ReadFailed;
      ghost var picks := controller.link.picks;
      var o, netPort := Field(2);
      if !o.Done? { return if o.Failed? then Error else Spinning; }
      serverPort := FromBe16(netPort);
      var netSize, ip;
      ghost var here := controller.link.picks;
      o, netSize, ip := SizedField();
      FieldsUse(o, picks, here, controller.link.picks);
      if !o.Done? { return if o.Failed? then Error else Spinning; }
      serverIp := ip + [0];
      here := controller.link.picks;
      o, netSize, data := SizedField();
      FieldsUse(o, picks, here, controller.link.picks);
      if !o.Done? { return if o.Failed? then Error else Spinning; }
      dataSize := |data|;
      bufferSize := Raw(netSize, littleEndian);
      r := Success;
    }

    /** One command: START reads its data and starts the threads, STOP ends, anything else is an error. */
    method HandleController(threadsStart: bool) returns (r: Verdict)
      modifies this, controller
      ensures NoFaults(old(controller.link.picks)) ==>
                && NoFaults(controller.link.picks)
                && match Parse(old(controller.link.inb))
                   case Start(port, ip, bytes, rest) =>
                     && serverPort == port && serverIp == ip && dataSize == |bytes| && data == bytes
                     && controller.link.inb == rest
                     && r == (if threadsStart then Success else Error)
                     && runs == old(runs) + (if threadsStart then [Settings(port, ip, bytes)] else [])
                   case Stop(rest) => r == Finish && controller.link.inb == rest && runs == old(runs)
                   case Unknown(rest) => r == Error && controller.link.inb == rest && runs == old(runs)
                   case Short => r == Spinning && runs == old(runs)
      ensures var c := Parse(old(controller.link.inb));
              match r
              case Success =>
                && c.Start? && threadsStart && controller.link.inb == c.rest
                && runs == old(runs) + [Settings(c.port, c.ip, c.data)]
              case Finish => c.Stop? && controller.link.inb == c.rest && runs == old(runs)
              case _ => runs == old(runs)
      ensures match r
              case Error =>
                || ReadFailed(old(controller.link.picks), controller.link.picks)
                || (Clean(old(controller.link.picks), controller.link.picks)
                    && (Parse(old(controller.link.inb)).Unknown?
                        || (Parse(old(controller.link.inb)).Start? && !threadsStart)))
              case _ => Clean(old(controller.link.picks), controller.link.picks)
    {
      hide NoFaults, ParseData, Clean, ReadFailed;
      ghost var picks := controller.link.picks;
      var o, bytes := Field(2);
      if !o.Done? {
        return if o.Failed? then Error else Spinning;
      }
      var command := FromBe16(bytes);
      if command == START {
        ghost var here := controller.link.picks;
        r := ReadData();
        FieldsUse(if r == Error then Failed else Done, picks, here, controller.link.picks);
        if r == Success {
          if threadsStart {
            runs := runs + [Settings(serverPort, serverIp, data)];
          } else {
            r := Error;
          }
        }
      } else if command == STOP {
        r := Finish;
      } else {
        r := Error;
      }
    }

    /**
     The client's loop. Without faults, under any fragmentation, it starts threads with exactly the settings
     that the stream spells, in order, and ends as `Listen` says. On any link it starts a first part of them,
     and all of them if it ends normally. Threads can be started `threads` times before that fails.
     */
    method RunController(threads: nat) returns (r: Verdict)
      modifies this, controller
      ensures var l := Listen(old(controller.link.inb), threads);
              && (NoFaults(old(controller.link.picks)) ==> r == l.verdict)
              && (NoFaults(old(controller.link.picks)) || r == Success ==>
                    && r == l.verdict && runs == old(runs) + l.runs
                    && (r != Spinning ==> controller.link.inb == l.rest))
              && old(runs) <= runs <= old(runs) + l.runs
      ensures r != Finish
      ensures ReadFailed(old(controller.link.picks), controller.link.picks) ==> r == Error
      ensures ReadFailed(old(controller.link.picks), controller.link.picks)
              || Clean(old(controller.link.picks), controller.link.picks)
    {
      hide Parse, Listen, NoFaults, Clean, ReadFailed;
      UsedNone(controller.link.picks);
      var exit, left := false, threads;
      ghost var start, all := controller.link, Listen(controller.link.inb, threads);
      ghost var done: seq<Settings> := [];
      r := Success;
      while !exit
        invariant NoFaults(start.picks) ==> NoFaults(controller.link.picks)
        invariant runs == old(runs) + done && done <= all.runs
        invariant !exit ==> var l := Listen(controller.link.inb, left);
                            all.verdict == l.verdict && all.runs == done + l.runs && all.rest == l.rest
        invariant exit && (NoFaults(start.picks) || r == Success) ==>
                    r == all.verdict && done == all.runs && (r != Spinning ==> controller.link.inb == all.rest)
        invariant r != Finish
        invariant if exit && r == Error
                  then ReadFailed(start.picks, controller.link.picks) || Clean(start.picks, controller.link.picks)
                  else Clean(start.picks, controller.link.picks)
        decreases !exit, |controller.link.inb|
      {
        ghost var here := controller.link.picks;
        ListenOne(controller.link.inb, left);
        ghost var c := Parse(controller.link.inb);
        r := HandleController(left > 0);
        HandledUses(start.picks, here, controller.link.picks);
        if r == Finish {
          r := Success;
          exit := true;
        } else if r == Error || r == Spinning {
          exit := true;
        } else {
          done := done + [Settings(c.port, c.ip, c.data)];
          left := left - 1;
        }
      }
      FailedIsNotClean(start.picks, controller.link.picks);
    }
  }

  lemma FailedIsNotClean(a: seq<Pick>, b: seq<Pick>)
    ensures ReadFailed(a, b) ==> !Clean(a, b)
  {
    hide Clean, StruckBy;
    forall p: Pick | StruckBy(a, b, p) && !p.Piece? ensures !Clean(a, b) {
      LastUsed(a, b, p);
    }
  }

  lemma HandledUses(a: seq<Pick>, b: seq<Pick>, c: seq<Pick>)
    requires Clean(a, b)
    ensures Clean(b, c) ==> Clean(a, c)
    ensures ReadFailed(b, c) ==> ReadFailed(a, c)
  {
    hide Clean, StruckBy;
    UsedMore(a, b, c);
    UsedLast(a, b, c, Interrupt);
    UsedLast(a, b, c, Failure);
  }

  /** What the client passes to its threads; `ip` is the buffer holding the C string. */
  datatype Settings = Settings(port: uint16, ip: seq<byte>, data: seq<byte>)

  /** How a client's run ends, what it has started threads with, and what it left unread. */
  datatype Listening = Listening(verdict: Verdict, runs: seq<Settings>, rest: seq<byte>)

  lemma ParseConsumes(s: seq<byte>)
    ensures Parse(s).Start? ==> |Parse(s).rest| < |s|
  {
  }

  /** A stream of commands, simply read off: up to STOP, an unknown command, threads that fail, or the end. */
  function Listen(s: seq<byte>, threads: nat): Listening
    decreases |s|
  {
    ParseConsumes(s);
    match Parse(s)
    case Start(port, ip, data, rest) =>
      if threads == 0 then Listening(Error, [], rest)
      else
        var l := Listen(rest, threads - 1);
        l.(runs := [Settings(port, ip, data)] + l.runs)
    case Stop(rest) => Listening(Success, [], rest)
    case Unknown(rest) => Listening(Error, [], rest)
    case Short => Listening(Spinning, [], s)
  }

  lemma ListenOne(s: seq<byte>, threads: nat)
    ensures match Parse(s)
            case Start(port, ip, data, rest) =>
              && |rest| < |s|
              && (threads == 0 ==> Listen(s, threads) == Listening(Error, [], rest))
              && (threads > 0 ==>
                    var l := Listen(rest, threads - 1);
                    Listen(s, threads) == Listening(l.verdict, [Settings(port, ip, data)] + l.runs, l.rest))
            case Stop(rest) => Listen(s, threads) == Listening(Success, [], rest)
            case Unknown(rest) => Listen(s, threads) == Listening(Error, [], rest)
            case Short => Listen(s, threads) == Listening(Spinning, [], s)
  {
    ParseConsumes(s);
    hide Parse;
  }

  /* ---- whole conversations ---- */

  predicate AllValid(jobs: seq<Job>) {
    forall k :: 0 <= k < |jobs| ==> jobs[k].Valid()
  }

  /** send_start and send_data for each job, then send_stop. */
  function Script(jobs: seq<Job>): seq<byte>
    requires AllValid(jobs)
  {
    if jobs == [] then Be16(STOP) else Be16(START) + Encode(jobs[0]) + Script(jobs[1..])
  }

  /** The octets that a script begins and ends with. */
  lemma {:induction false} ScriptOctets(jobs: seq<Job>)
    requires AllValid(jobs)
    ensures |Script(jobs)| >= 2 && Script(jobs)[|Script(jobs)| - 2..] == [0, 2]
    ensures Script(jobs)[..2] == if jobs == [] then [0, 2] else [0, 1]
  {
    hide Encode;
    CommandOctets();
    if jobs != [] {
      ScriptOctets(jobs[1..]);
      var head, tail := Be16(START) + Encode(jobs[0]), Script(jobs[1..]);
      assert Script(jobs) == head + tail;
      assert (head + tail)[|head + tail| - 2..] == tail[|tail| - 2..];
    }
  }

  /** One connection's link after send_start and send_data for each job and then send_stop. */
  function Told(l: Link, jobs: seq<Job>): Link
    requires AllValid(jobs)
    decreases |jobs|
  {
    if jobs == [] then Written(l, Be16(STOP)).1
    else Told(WrittenEach(Written(l, Be16(START)).1, Fields(jobs[0])).1, jobs[1..])
  }

  lemma ToldOne(l: Link, job: Job)
    requires job.Valid() && NoFaults(l.wpicks)
    ensures var fed := WrittenEach(Written(l, Be16(START)).1, Fields(job)).1;
            NoFaults(fed.wpicks) && fed.outb == l.outb + Be16(START) + Encode(job)
  {
    hide Written, WrittenEach, Fields, Encode, NoFaults;
    var started := Written(l, Be16(START)).1;
    EachArrives(started, Fields(job));
    EveryIntactConnectionIsServed(started, job);
  }

  /** Under any short writes, a connection without faults is sent the script and nothing else. */
  lemma {:induction false} ToldScript(l: Link, jobs: seq<Job>)
    requires AllValid(jobs) && NoFaults(l.wpicks)
    ensures Told(l, jobs).outb == l.outb + Script(jobs)
    decreases |jobs|
  {
    hide Written, WrittenEach, Fields, Encode, NoFaults, Be16;
    if jobs != [] {
      ToldOne(l, jobs[0]);
      var fed := WrittenEach(Written(l, Be16(START)).1, Fields(jobs[0])).1;
      ToldScript(fed, jobs[1..]);
      Regroup(l.outb, Be16(START), Encode(jobs[0]), Script(jobs[1..]));
    }
  }

  lemma Regroup(a: seq<byte>, b: seq<byte>, c: seq<byte>, d: seq<byte>)
    ensures a + b + c + d == a + (b + c + d)
  {
  }

  /** These settings are these jobs, the IP as the C string in its buffer. */
  predicate Means(runs: seq<Settings>, jobs: seq<Job>) {
    && |runs| == |jobs|
    && forall k :: 0 <= k < |runs| ==>
         runs[k].port == jobs[k].port && CString(runs[k].ip) == jobs[k].ip && runs[k].data == jobs[k].data
  }

  /**
   The round trip: for any number of jobs, the client starts threads with exactly those jobs, in order, then
   ends normally, having read the conversation and not a byte of what comes after it.
   */
  lemma {:induction false} ScriptRoundTrip(jobs: seq<Job>, more: seq<byte>, threads: nat)
    requires AllValid(jobs) && |jobs| <= threads
    ensures var l := Listen(Script(jobs) + more, threads);
            l.verdict == Success && Means(l.runs, jobs) && l.rest == more
  {
    hide Parse, CString, Encode;
    if jobs == [] {
      ParseStop(more);
    } else {
      var rest := Script(jobs[1..]) + more;
      assert Script(jobs) + more == Be16(START) + Encode(jobs[0]) + rest;
      ParseEncoded(jobs[0], rest);
      ScriptRoundTrip(jobs[1..], more, threads - 1);
      assert jobs == [jobs[0]] + jobs[1..];
    }
  }

  /** From the controller's writes to the client's threads: whatever the cuts, the client runs exactly the jobs. */
  lemma Conversation(l: Link, jobs: seq<Job>, threads: nat)
    requires AllValid(jobs) && |jobs| <= threads && NoFaults(l.wpicks) && l.outb == []
    ensures var heard := Listen(Told(l, jobs).outb, threads);
            heard.verdict == Success && Means(heard.runs, jobs) && heard.rest == []
  {
    ToldScript(l, jobs);
    ScriptRoundTrip(jobs, [], threads);
    assert [] + Script(jobs) == Script(jobs) + [] == Script(jobs);
  }

  /** A conversation cut short anywhere inside a job: the jobs before it are run, and the client keeps waiting. */
  lemma {:induction false} OnlyWholeJobs(jobs: seq<Job>, cut: seq<byte>, threads: nat)
    requires AllValid(jobs) && |jobs| <= threads && Parse(cut).Short?
    ensures var l := Listen(Starts(jobs) + cut, threads);
            l.verdict == Spinning && Means(l.runs, jobs)
  {
    hide Parse, CString, Encode;
    if jobs == [] {
      assert Starts(jobs) + cut == cut;
    } else {
      var rest := Starts(jobs[1..]) + cut;
      assert Starts(jobs) + cut == Be16(START) + Encode(jobs[0]) + rest;
      ParseEncoded(jobs[0], rest);
      OnlyWholeJobs(jobs[1..], cut, threads - 1);
      assert jobs == [jobs[0]] + jobs[1..];
    }
  }

  function Starts(jobs: seq<Job>): seq<byte>
    requires AllValid(jobs)
  {
    if jobs == [] then [] else Be16(START) + Encode(jobs[0]) + Starts(jobs[1..])
  }

  lemma ParseStop(more: seq<byte>)
    ensures Parse(Be16(STOP) + more) == Stop(more)
  {
    Be16RoundTrip(STOP);
    assert (Be16(STOP) + more)[..2] == Be16(STOP) && (Be16(STOP) + more)[2..] == more;
  }
}
