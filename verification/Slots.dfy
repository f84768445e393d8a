/**
 The parent's table of client sockets: the entries of `pollfds` from index 2 on, as values.
 Slot i here is pollfds[i + 2] there. A negative fd is a disabled entry, fd 0 a free one.
 */
module Slots {
  import opened Bytes
  import opened Counting

  datatype Addr = Addr(ip: uint32, port: uint16)

  const NO_ADDR := Addr(0, 0)

  /** What accept returns: a descriptor and its peer, or an error. */
  datatype Accepted = Accepted(fd: int, addr: Addr) | AcceptFailed

  datatype Revents = Revents(pollin: bool, hup: bool, err: bool)

  const QUIET := Revents(false, false, false)

  /** revents == POLLIN: readable, and neither hung up nor in error. */
  predicate JustIn(r: Revents) {
    r.pollin && !r.hup && !r.err
  }

  /** The else-if of the sweep: POLLHUP or POLLERR, in whatever company. */
  predicate Gone(r: Revents) {
    !JustIn(r) && (r.hup || r.err)
  }

  datatype PollFd = PollFd(fd: int, events: bool, revents: Revents)

  const EMPTY := PollFd(0, false, QUIET)

  function Abs(x: int): nat {
    if x < 0 then -x else x
  }

  /** The first free slot at or after k; slot 0 when there is none. */
  function FreeFrom(slots: seq<PollFd>, k: nat): nat
    requires k <= |slots|
    decreases |slots| - k
  {
    if k == |slots| then 0 else if slots[k].fd == 0 then k else FreeFrom(slots, k + 1)
  }

  function FreeIndex(slots: seq<PollFd>): nat {
    FreeFrom(slots, 0)
  }

  function Occupied(slots: seq<PollFd>, fd: int): seq<PollFd>
    requires FreeIndex(slots) < |slots|
  {
    var i := FreeIndex(slots);
    slots[i := slots[i].(fd := fd, events := true)]
  }

  function Negated(slots: seq<PollFd>, i: nat): seq<PollFd>
    requires i < |slots|
  {
    slots[i := slots[i].(fd := -slots[i].fd, revents := QUIET)]
  }

  function Cleared(slots: seq<PollFd>, i: nat): seq<PollFd>
    requires i < |slots|
  {
    slots[i := EMPTY]
  }

  function Quieted(slots: seq<PollFd>, i: nat): seq<PollFd>
    requires i < |slots|
  {
    slots[i := slots[i].(revents := QUIET)]
  }

  /** The re-enable loop visits every slot and flips each one that holds -fd. */
  function Reenabled(slots: seq<PollFd>, fd: int): (r: seq<PollFd>)
    ensures |r| == |slots|
  {
    seq(|slots|, i requires 0 <= i < |slots| =>
      if slots[i].fd == -fd then slots[i].(fd := -slots[i].fd) else slots[i])
  }

  /** poll fills in what it reports for each slot. */
  function Marked(slots: seq<PollFd>, revents: seq<Revents>): (r: seq<PollFd>)
    requires |slots| == |revents|
    ensures |r| == |slots|
  {
    seq(|slots|, i requires 0 <= i < |slots| => slots[i].(revents := revents[i]))
  }

  function LiveMarks(slots: seq<PollFd>): (r: seq<bool>)
    ensures |r| == |slots|
  {
    seq(|slots|, i requires 0 <= i < |slots| => slots[i].fd != 0)
  }

  function OffMarks(slots: seq<PollFd>): (r: seq<bool>)
    ensures |r| == |slots|
  {
    seq(|slots|, i requires 0 <= i < |slots| => slots[i].fd < 0)
  }

  /** Slots with a connection, enabled or not. */
  function NumLive(slots: seq<PollFd>): nat {
    Count(LiveMarks(slots))
  }

  /** Slots whose connection is out with a child. */
  function NumOff(slots: seq<PollFd>): nat {
    Count(OffMarks(slots))
  }

  function LiveFds(slots: seq<PollFd>): set<int> {
    set i | 0 <= i < |slots| && slots[i].fd != 0 :: Abs(slots[i].fd)
  }

  ghost predicate Distinct(slots: seq<PollFd>) {
    forall i, j :: 0 <= i < j < |slots| && slots[i].fd != 0 ==> Abs(slots[i].fd) != Abs(slots[j].fd)
  }

  /** The table, the counter, the listen switch and the process's open descriptors tell one story. */
  ghost predicate Consistent(slots: seq<PollFd>, num: int, listening: bool, open: set<int>) {
    && Distinct(slots)
    && (forall i :: 0 <= i < |slots| ==> (slots[i].fd != 0 <==> slots[i].events))
    && num == NumLive(slots)
    && (listening <==> num < |slots|)
    && open == LiveFds(slots)
  }

  lemma {:induction false} FreeFromFinds(slots: seq<PollFd>, k: nat)
    requires k <= |slots|
    requires exists i :: k <= i < |slots| && slots[i].fd == 0
    ensures FreeFrom(slots, k) < |slots| && slots[FreeFrom(slots, k)].fd == 0
    decreases |slots| - k
  {
    if slots[k].fd != 0 {
      FreeFromFinds(slots, k + 1);
    }
  }

  /** While the listen switch is on the search finds a free slot, so its default never names a live one. */
  lemma FreeIndexIsFree(slots: seq<PollFd>)
    requires NumLive(slots) < |slots|
    ensures FreeIndex(slots) < |slots| && slots[FreeIndex(slots)].fd == 0
  {
    CountAll(LiveMarks(slots));
    var i :| 0 <= i < |slots| && !LiveMarks(slots)[i];
    assert slots[i].fd == 0;
    FreeFromFinds(slots, 0);
  }

  /** Replacing one slot changes the counts by what that slot alone counted for. */
  lemma SlotUpdate(slots: seq<PollFd>, i: nat, x: PollFd)
    requires i < |slots|
    ensures NumLive(slots[i := x]) + Bit(slots[i].fd != 0) == NumLive(slots) + Bit(x.fd != 0)
    ensures NumOff(slots[i := x]) + Bit(slots[i].fd < 0) == NumOff(slots) + Bit(x.fd < 0)
  {
    assert LiveMarks(slots[i := x]) == LiveMarks(slots)[i := x.fd != 0];
    assert OffMarks(slots[i := x]) == OffMarks(slots)[i := x.fd < 0];
    CountUpdate(LiveMarks(slots), i, x.fd != 0);
    CountUpdate(OffMarks(slots), i, x.fd < 0);
  }

  /** Accepting keeps the table consistent, adds exactly the new descriptor and overwrites nobody. */
  lemma AcceptKeeps(slots: seq<PollFd>, num: int, open: set<int>, fd: int)
    requires Consistent(slots, num, true, open)
    requires fd > 0 && fd !in open
    ensures FreeIndex(slots) < |slots| && slots[FreeIndex(slots)].fd == 0
    ensures Consistent(Occupied(slots, fd), num + 1, num + 1 < |slots|, open + {fd})
    ensures NumOff(Occupied(slots, fd)) == NumOff(slots)
  {
    FreeIndexIsFree(slots);
    var i := FreeIndex(slots);
    var after := Occupied(slots, fd);
    SlotUpdate(slots, i, after[i]);
    assert LiveFds(after) == open + {fd} by {
      forall f | f in open ensures f in LiveFds(after) {
        var j :| 0 <= j < |slots| && slots[j].fd != 0 && Abs(slots[j].fd) == f;
        assert after[j] == slots[j];
      }
      assert Abs(after[i].fd) == fd;
    }
    forall j | 0 <= j < |slots| && slots[j].fd != 0 ensures Abs(slots[j].fd) != fd {
      assert Abs(slots[j].fd) in LiveFds(slots);
    }
  }

  /** Removing keeps the table consistent, takes exactly that descriptor out and turns listening on. */
  lemma RemoveKeeps(slots: seq<PollFd>, num: int, listening: bool, open: set<int>, i: nat)
    requires Consistent(slots, num, listening, open)
    requires i < |slots| && slots[i].fd > 0
    ensures slots[i].fd in open
    ensures Consistent(Cleared(slots, i), num - 1, true, open - {slots[i].fd})
    ensures 0 <= num - 1 < |slots|
    ensures NumOff(Cleared(slots, i)) == NumOff(slots)
  {
    var after := Cleared(slots, i);
    SlotUpdate(slots, i, EMPTY);
    assert Abs(slots[i].fd) in LiveFds(slots);
    assert LiveFds(after) == open - {slots[i].fd} by {
      forall f | f in open - {slots[i].fd} ensures f in LiveFds(after) {
        var j :| 0 <= j < |slots| && slots[j].fd != 0 && Abs(slots[j].fd) == f;
        assert after[j] == slots[j];
      }
      forall f | f in LiveFds(after) ensures f in open - {slots[i].fd} {
        var j :| 0 <= j < |slots| && after[j].fd != 0 && Abs(after[j].fd) == f;
        assert slots[j] == after[j] && j != i;
      }
    }
  }

  /** Signs and revents do not matter to consistency. */
  lemma SignsKeep(slots: seq<PollFd>, slots': seq<PollFd>, num: int, listening: bool, open: set<int>)
    requires Consistent(slots, num, listening, open) && |slots'| == |slots|
    requires forall j :: 0 <= j < |slots| ==>
               Abs(slots'[j].fd) == Abs(slots[j].fd) && slots'[j].events == slots[j].events
    ensures Consistent(slots', num, listening, open)
  {
    assert LiveMarks(slots') == LiveMarks(slots);
    forall f | f in LiveFds(slots) ensures f in LiveFds(slots') {
      var j :| 0 <= j < |slots| && slots[j].fd != 0 && Abs(slots[j].fd) == f;
      assert Abs(slots'[j].fd) == f;
    }
    forall f | f in LiveFds(slots') ensures f in LiveFds(slots) {
      var j :| 0 <= j < |slots| && slots'[j].fd != 0 && Abs(slots'[j].fd) == f;
      assert Abs(slots[j].fd) == f;
    }
    assert LiveFds(slots') == LiveFds(slots);
    forall i, j | 0 <= i < j < |slots'| && slots'[i].fd != 0 ensures Abs(slots'[i].fd) != Abs(slots'[j].fd) {
      assert Abs(slots[i].fd) != Abs(slots[j].fd);
    }
    forall i | 0 <= i < |slots'| ensures slots'[i].fd != 0 <==> slots'[i].events {
      assert Abs(slots'[i].fd) == Abs(slots[i].fd);
    }
  }

  /** Changing the sign of one entry and its revents keeps the table consistent. */
  lemma SignKeeps(slots: seq<PollFd>, num: int, listening: bool, open: set<int>, i: nat, x: PollFd)
    requires Consistent(slots, num, listening, open)
    requires i < |slots| && Abs(x.fd) == Abs(slots[i].fd) && x.events == slots[i].events
    ensures Consistent(slots[i := x], num, listening, open)
  {
    SignsKeep(slots, slots[i := x], num, listening, open);
  }

  /** On a consistent table the re-enable loop flips one slot when one is disabled under that number. */
  lemma ReenableIsOneFlip(slots: seq<PollFd>, i: nat)
    requires Distinct(slots)
    requires i < |slots| && slots[i].fd < 0
    ensures Reenabled(slots, -slots[i].fd) == slots[i := slots[i].(fd := -slots[i].fd)]
  {
    forall j | 0 <= j < |slots| && j != i ensures slots[j].fd != slots[i].fd {
      assert Abs(slots[if i < j then i else j].fd) != Abs(slots[if i < j then j else i].fd);
    }
  }

  /** The search takes the first free slot; with none it falls back on the first of all. */
  lemma {:induction false} FreeIsFirst(slots: seq<PollFd>, k: nat)
    requires k <= |slots|
    ensures var i := FreeFrom(slots, k);
            if exists j :: k <= j < |slots| && slots[j].fd == 0
            then k <= i < |slots| && slots[i].fd == 0 && forall j :: k <= j < i ==> slots[j].fd != 0
            else i == 0
    decreases |slots| - k
  {
    if k < |slots| && slots[k].fd != 0 {
      FreeIsFirst(slots, k + 1);
    }
  }

  /** A negated slot comes back exactly as it was, wherever else the table changed signs. */
  lemma NegateReenable(slots: seq<PollFd>, i: nat)
    requires Distinct(slots)
    requires i < |slots| && slots[i].fd > 0
    ensures Reenabled(Negated(slots, i), slots[i].fd) == Quieted(slots, i)
  {
    var off := Negated(slots, i);
    forall j, k | 0 <= j < k < |off| && off[j].fd != 0 ensures Abs(off[j].fd) != Abs(off[k].fd) {
      assert Abs(off[j].fd) == Abs(slots[j].fd) && Abs(off[k].fd) == Abs(slots[k].fd);
    }
    ReenableIsOneFlip(off, i);
  }

  /** Distinct descriptors: as many numbers as live slots. */
  lemma {:induction false} LiveIsOpen(slots: seq<PollFd>)
    requires Distinct(slots)
    ensures |LiveFds(slots)| == NumLive(slots)
  {
    if slots != [] {
      var n := |slots| - 1;
      LiveIsOpen(slots[..n]);
      assert LiveMarks(slots)[..n] == LiveMarks(slots[..n]);
      if slots[n].fd == 0 {
        assert LiveFds(slots) == LiveFds(slots[..n]) by { LiveFdsPush(slots); }
      } else {
        assert LiveFds(slots) == LiveFds(slots[..n]) + {Abs(slots[n].fd)} by { LiveFdsPush(slots); }
      }
    }
  }

  lemma LiveFdsPush(slots: seq<PollFd>)
    requires slots != []
    ensures LiveFds(slots) == LiveFds(slots[..|slots| - 1])
              + (if slots[|slots| - 1].fd != 0 then {Abs(slots[|slots| - 1].fd)} else {})
  {
    var n := |slots| - 1;
    forall f | f in LiveFds(slots[..n]) ensures f in LiveFds(slots) {
      var j :| 0 <= j < n && slots[..n][j].fd != 0 && Abs(slots[..n][j].fd) == f;
      assert slots[j] == slots[..n][j];
    }
    forall f | f in LiveFds(slots) && (slots[n].fd == 0 || f != Abs(slots[n].fd)) ensures f in LiveFds(slots[..n]) {
      var j :| 0 <= j < |slots| && slots[j].fd != 0 && Abs(slots[j].fd) == f;
      assert slots[..n][j] == slots[j];
    }
  }

  /** From this slot on, only enabled entries carry a report. */
  predicate Asked(slots: seq<PollFd>, from: nat) {
    forall j :: from <= j < |slots| && slots[j].revents != QUIET ==> slots[j].fd > 0
  }

  /* ---- one whole sweep, seen slot by slot ---- */

  /** What a pass of the client sweep leaves in a slot: dispatched and disabled, removed, or just quieted. */
  function Swept(x: PollFd): PollFd {
    if JustIn(x.revents) then x.(fd := -x.fd, revents := QUIET)
    else if Gone(x.revents) then EMPTY
    else x.(revents := QUIET)
  }

  /** The table when the sweep has done its first k slots. */
  function SweptTo(slots: seq<PollFd>, k: nat): (r: seq<PollFd>)
    ensures |r| == |slots|
  {
    seq(|slots|, i requires 0 <= i < |slots| => if i < k then Swept(slots[i]) else slots[i])
  }

  /** The numbers the sweep has sent to children by then, in order. */
  function SentBy(slots: seq<PollFd>, k: nat): seq<int>
    requires k <= |slots|
  {
    if k == 0 then []
    else SentBy(slots, k - 1) + (if JustIn(slots[k - 1].revents) then [slots[k - 1].fd] else [])
  }

  /** The descriptors it has closed by then. */
  function ClosedBy(slots: seq<PollFd>, k: nat): set<int>
    requires k <= |slots|
  {
    set i | 0 <= i < k && Gone(slots[i].revents) :: slots[i].fd
  }

  lemma SweepNone(slots: seq<PollFd>)
    ensures SweptTo(slots, 0) == slots && SentBy(slots, 0) == [] && ClosedBy(slots, 0) == {}
  {
  }

  lemma SweepOne(slots: seq<PollFd>, i: nat)
    requires i < |slots|
    ensures SweptTo(slots, i)[i] == slots[i]
    ensures SweptTo(slots, i)[i := Swept(slots[i])] == SweptTo(slots, i + 1)
    ensures SentBy(slots, i + 1) == SentBy(slots, i) + (if JustIn(slots[i].revents) then [slots[i].fd] else [])
    ensures ClosedBy(slots, i + 1) == ClosedBy(slots, i) + (if Gone(slots[i].revents) then {slots[i].fd} else {})
  {
  }

  /* ---- what the report of an entry means for it ---- */

  /**
   The whole effect of a complete sweep on one entry, by the flags poll set: hung up or in error, it is freed
   and closed, readable or not; readable and nothing else, it is dispatched (and, in the process server,
   disabled) and stays open; otherwise it stays as it is. `delivered`: nothing interrupts the dispatch.
   */
  predicate Treated(x: PollFd, y: PollFd, disables: bool, sent: bool, closed: bool, delivered: bool) {
    && y.revents == Revents(false, false, false)
    && (x.revents.hup || x.revents.err ==> y.fd == 0 && !y.events)
    && (x.revents.pollin && !x.revents.hup && !x.revents.err ==>
          y.fd == (if disables then -x.fd else x.fd) && y.events == x.events)
    && (!x.revents.pollin && !x.revents.hup && !x.revents.err ==> y.fd == x.fd && y.events == x.events)
    && (sent <==> x.revents.pollin && !x.revents.hup && !x.revents.err && delivered)
    && (closed <==> x.revents.hup || x.revents.err)
  }

  lemma {:induction false} InSentBy(slots: seq<PollFd>, k: nat, f: int)
    requires k <= |slots|
    ensures f in SentBy(slots, k) <==> exists i :: 0 <= i < k && JustIn(slots[i].revents) && slots[i].fd == f
  {
    if k > 0 {
      InSentBy(slots, k - 1, f);
    }
  }

  /** In a table of distinct descriptors two entries that carry a report are told apart by theirs. */
  lemma ReportedApart(slots: seq<PollFd>, i: nat, j: nat)
    requires Distinct(slots) && Asked(slots, 0) && i < |slots| && j < |slots| && i != j
    requires slots[j].revents != QUIET
    ensures slots[i].fd != slots[j].fd
  {
    assert slots[j].fd > 0;
    var low, high := if i < j then i else j, if i < j then j else i;
    if slots[low].fd != 0 {
      assert Abs(slots[low].fd) != Abs(slots[high].fd);
    }
  }

  /** A sweep that has done its first k entries: those are treated, and the others untouched. */
  lemma SweepTreats(slots: seq<PollFd>, k: nat, i: nat)
    requires Distinct(slots) && Asked(slots, 0) && i < |slots| && k <= |slots|
    ensures var y := SweptTo(slots, k)[i];
            var sent, closed := slots[i].fd in SentBy(slots, k), slots[i].fd in ClosedBy(slots, k);
            if i < k then Treated(slots[i], y, true, sent, closed, true) else y == slots[i] && !sent && !closed
  {
    InSentBy(slots, k, slots[i].fd);
    forall j | 0 <= j < k && j != i && slots[j].revents != QUIET ensures slots[i].fd != slots[j].fd {
      ReportedApart(slots, i, j);
    }
  }
}
