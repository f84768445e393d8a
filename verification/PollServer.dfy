/**
 The poll server: three parallel tables, a counter and a listen switch, updated in place.
 Abstractly it is a map from open descriptors to peer addresses; accepting inserts, a hang-up deletes.
 The entries of its pollfds after the first obey the same table laws as the process server's.
 */
module PollServer {
  import opened Counting
  import opened Slots

  type Book = map<int, Addr>

  predicate NonNegative(slots: seq<PollFd>) {
    forall i :: 0 <= i < |slots| ==> slots[i].fd >= 0
  }

  /** The tables list exactly this book: each live entry under its descriptor, with its peer's address. */
  ghost predicate Lists(slots: seq<PollFd>, fds: seq<int>, addrs: seq<Addr>, book: Book) {
    && |fds| == |addrs| == |slots|
    && NonNegative(slots)
    && (forall i :: 0 <= i < |slots| ==> fds[i] == slots[i].fd)
    && (forall i :: 0 <= i < |slots| && slots[i].fd != 0 ==> slots[i].fd in book && book[slots[i].fd] == addrs[i])
  }

  lemma InsertBook(slots: seq<PollFd>, fds: seq<int>, addrs: seq<Addr>, num: int, book: Book, fd: int, addr: Addr)
    requires Consistent(slots, num, true, book.Keys) && Lists(slots, fds, addrs, book)
    requires fd > 0 && fd !in book
    ensures FreeIndex(slots) < |slots| && slots[FreeIndex(slots)].fd == 0
    ensures Consistent(Occupied(slots, fd), num + 1, num + 1 < |slots|, book[fd := addr].Keys)
    ensures |fds| == |addrs| == |slots|
    ensures Lists(Occupied(slots, fd), fds[FreeIndex(slots) := fd], addrs[FreeIndex(slots) := addr], book[fd := addr])
  {
    hide Consistent;
    AcceptKeeps(slots, num, book.Keys, fd);
    assert book[fd := addr].Keys == book.Keys + {fd};
  }

  lemma DeleteBook(slots: seq<PollFd>, fds: seq<int>, addrs: seq<Addr>, num: int, listening: bool, book: Book, i: nat)
    requires Consistent(slots, num, listening, book.Keys) && Lists(slots, fds, addrs, book)
    requires i < |slots| && slots[i].fd > 0
    ensures Consistent(Cleared(slots, i), num - 1, true, (book - {slots[i].fd}).Keys)
    ensures 0 <= num - 1 < |slots|
    ensures |fds| == |addrs| == |slots|
    ensures Lists(Cleared(slots, i), fds[i := 0], addrs[i := NO_ADDR], book - {slots[i].fd})
  {
    RemoveKeeps(slots, num, listening, book.Keys, i);
    assert (book - {slots[i].fd}).Keys == book.Keys - {slots[i].fd};
    forall j | 0 <= j < |slots| && j != i && slots[j].fd != 0 ensures slots[j].fd != slots[i].fd {
    }
  }

  lemma QuietLists(slots: seq<PollFd>, fds: seq<int>, addrs: seq<Addr>, book: Book, i: nat)
    requires Lists(slots, fds, addrs, book) && i < |slots|
    ensures Lists(Quieted(slots, i), fds, addrs, book)
  {
  }

  /** The table when the sweep has done its first k entries. */
  function LeftTo(slots: seq<PollFd>, k: nat): (r: seq<PollFd>)
    ensures |r| == |slots|
  {
    seq(|slots|, i requires 0 <= i < |slots| => if i < k then Left(slots[i]) else slots[i])
  }

  lemma LeftNone(slots: seq<PollFd>, book: Book, served: seq<int>)
    ensures LeftTo(slots, 0) == slots && served + SentBy(slots, 0) == served && book - ClosedBy(slots, 0) == book
  {
    assert ClosedBy(slots, 0) == {};
  }

  /** One more entry of the sweep: what it does to the table, the service log and the book. */
  lemma LeftOne(slots: seq<PollFd>, i: nat, book: Book, served: seq<int>)
    requires i < |slots|
    ensures LeftTo(slots, i)[i] == slots[i]
    ensures LeftTo(slots, i)[i := Left(slots[i])] == LeftTo(slots, i + 1)
    ensures Gone(slots[i].revents) ==> (book - ClosedBy(slots, i)) - {slots[i].fd} == book - ClosedBy(slots, i + 1)
    ensures !Gone(slots[i].revents) ==> book - ClosedBy(slots, i) == book - ClosedBy(slots, i + 1)
    ensures JustIn(slots[i].revents) ==> served + SentBy(slots, i) + [slots[i].fd] == served + SentBy(slots, i + 1)
    ensures !JustIn(slots[i].revents) ==> SentBy(slots, i) == SentBy(slots, i + 1)
  {
    SweepOne(slots, i);
    if !Gone(slots[i].revents) {
      assert ClosedBy(slots, i) == ClosedBy(slots, i + 1);
    }
  }

  /** What a turn of the sweep leaves in an entry. */
  function Left(x: PollFd): PollFd {
    if Gone(x.revents) then EMPTY else x.(revents := QUIET)
  }

  /** What a sweep over `before` that has done `done` entries leaves, by the flags that poll set. */
  ghost predicate AllTreated(before: seq<PollFd>, after: seq<PollFd>, done: nat, served: seq<int>,
                             book: Book, book': Book)
    requires |before| == |after|
  {
    forall i :: 0 <= i < |before| ==>
      var answered, closed := before[i].fd in served, before[i].fd in book && before[i].fd !in book';
      if i < done then Treated(before[i], after[i], false, answered, closed, true)
      else after[i] == before[i] && !answered && !closed
  }

  lemma LeftTreats(slots: seq<PollFd>, fds: seq<int>, addrs: seq<Addr>, num: int, listening: bool, book: Book, k: nat)
    requires Consistent(slots, num, listening, book.Keys) && Lists(slots, fds, addrs, book)
    requires Asked(slots, 0) && k <= |slots|
    ensures AllTreated(slots, LeftTo(slots, k), k, SentBy(slots, k), book, book - ClosedBy(slots, k))
  {
    hide SentBy, LiveFds, NumLive;
    forall i | 0 <= i < |slots|
      ensures var answered := slots[i].fd in SentBy(slots, k);
              var closed := slots[i].fd in book && slots[i].fd !in book - ClosedBy(slots, k);
              if i < k then Treated(slots[i], LeftTo(slots, k)[i], false, answered, closed, true)
              else LeftTo(slots, k)[i] == slots[i] && !answered && !closed
    {
      SweepTreats(slots, k, i);
    }
  }

  /* ---- a round of the loop, abstractly ---- */

  /**
   What the kernel answers in one round: `reports` says what poll finds on each descriptor, `failing` on which
   of them receiving or answering would fail.
   */
  datatype Round = Round(listenIn: bool, accepted: Accepted, reports: map<int, Revents>, failing: set<int>)

  function Report(reports: map<int, Revents>, fd: int): Revents {
    if fd > 0 && fd in reports then reports[fd] else QUIET
  }

  /** The descriptors that this round's reports say have hung up. */
  function HungUp(book: Book, reports: map<int, Revents>): set<int> {
    set fd | fd in book && Gone(Report(reports, fd))
  }

  /** By the flags: hung up or in error, readable or not, it is removed; readable and nothing else, it is served. */
  lemma ReportsByFlags(book: Book, r: Round, fd: int)
    requires fd in book && fd > 0
    ensures fd in HungUp(book, r.reports) <==> fd in r.reports && (r.reports[fd].hup || r.reports[fd].err)
    ensures Ready(book, r, fd) == (if !r.listenIn && fd in r.reports && r.reports[fd] == Revents(true, false, false)
                                   then 1 else 0)
  {
  }

  /** accept is called only when poll says so, so only while listening is on; it hands out a new descriptor. */
  predicate RoundOk(capacity: nat, book: Book, r: Round) {
    r.listenIn ==> |book| < capacity && (r.accepted.Accepted? ==> r.accepted.fd > 0 && r.accepted.fd !in book)
  }

  function AfterRound(book: Book, r: Round): Book {
    if r.listenIn then
      if r.accepted.Accepted? then book[r.accepted.fd := r.accepted.addr] else book
    else book - HungUp(book, r.reports)
  }

  /** How often this round serves the descriptor. */
  function Ready(book: Book, r: Round, fd: int): nat {
    Bit(!r.listenIn && fd in book && JustIn(Report(r.reports, fd)))
  }

  function TimesServed(book: Book, rounds: seq<Round>, fd: int): nat
    decreases |rounds|
  {
    if rounds == [] then 0
    else Ready(book, rounds[0], fd) + TimesServed(AfterRound(book, rounds[0]), rounds[1..], fd)
  }

  /** The round breaks the loop off: its accept fails, or it comes to a readable descriptor that fails. */
  ghost predicate Breaks(book: Book, r: Round) {
    if r.listenIn then r.accepted.AcceptFailed?
    else exists fd :: fd in book && fd in r.failing && JustIn(Report(r.reports, fd))
  }

  /** What a round that breaks off leaves: nobody new, and only descriptors that have hung up may be gone. */
  predicate BrokenOff(book: Book, r: Round, after: Book) {
    && after.Keys <= book.Keys
    && (forall fd :: fd in after ==> after[fd] == book[fd])
    && (forall fd :: fd in book && fd !in after ==> !r.listenIn && fd in HungUp(book, r.reports))
  }

  /** The kernel's answers are admissible for as long as the loop runs. */
  ghost predicate RoundsOk(capacity: nat, book: Book, rounds: seq<Round>)
    decreases |rounds|
  {
    rounds != [] ==>
      && RoundOk(capacity, book, rounds[0])
      && (!Breaks(book, rounds[0]) ==> RoundsOk(capacity, AfterRound(book, rounds[0]), rounds[1..]))
  }

  function AfterRounds(book: Book, rounds: seq<Round>): Book
    decreases |rounds|
  {
    if rounds == [] then book else AfterRounds(AfterRound(book, rounds[0]), rounds[1..])
  }

  /** How many rounds are completed before one breaks off. */
  ghost function Completed(book: Book, rounds: seq<Round>): (n: nat)
    ensures n <= |rounds|
    decreases |rounds|
  {
    if rounds == [] || Breaks(book, rounds[0]) then 0
    else 1 + Completed(AfterRound(book, rounds[0]), rounds[1..])
  }

  lemma RoundsOne(capacity: nat, book: Book, rounds: seq<Round>)
    requires RoundsOk(capacity, book, rounds)
    ensures rounds == [] ==> Completed(book, rounds) == 0
    ensures rounds != [] ==> RoundOk(capacity, book, rounds[0])
    ensures rounds != [] && Breaks(book, rounds[0]) ==> Completed(book, rounds) == 0
    ensures rounds != [] && !Breaks(book, rounds[0]) ==>
              var next := AfterRound(book, rounds[0]);
              RoundsOk(capacity, next, rounds[1..]) && Completed(book, rounds) == 1 + Completed(next, rounds[1..])
  {
    hide Breaks, RoundOk, AfterRound;
  }

  lemma RoundsNone(book: Book)
    ensures AfterRounds(book, []) == book && forall f :: TimesServed(book, [], f) == 0
  {
  }

  lemma {:induction false} RoundsPush(book: Book, rounds: seq<Round>, r: Round)
    ensures AfterRounds(book, rounds + [r]) == AfterRound(AfterRounds(book, rounds), r)
    ensures forall f :: TimesServed(book, rounds + [r], f)
                     == TimesServed(book, rounds, f) + Ready(AfterRounds(book, rounds), r, f)
    decreases |rounds|
  {
    hide AfterRound, Ready;
    if rounds == [] {
      assert ([] + [r])[1..] == [];
      forall f ensures TimesServed(book, [r], f) == Ready(book, r, f) {
        assert TimesServed(AfterRound(book, r), [r][1..], f) == 0;
      }
      assert [] + [r] == [r];
    } else {
      RoundsPush(AfterRound(book, rounds[0]), rounds[1..], r);
      assert (rounds + [r])[1..] == rounds[1..] + [r];
    }
  }

  /** The entries as poll leaves them. */
  function Reported(slots: seq<PollFd>, reports: map<int, Revents>): (r: seq<PollFd>)
    ensures |r| == |slots|
  {
    seq(|slots|, i requires 0 <= i < |slots| => slots[i].(revents := Report(reports, slots[i].fd)))
  }

  lemma ReportedKeeps(slots: seq<PollFd>, fds: seq<int>, addrs: seq<Addr>, num: int, listening: bool, book: Book,
                      reports: map<int, Revents>)
    requires Consistent(slots, num, listening, book.Keys) && Lists(slots, fds, addrs, book)
    ensures Consistent(Reported(slots, reports), num, listening, book.Keys)
    ensures Lists(Reported(slots, reports), fds, addrs, book)
    ensures Reported(Reported(slots, reports), reports) == Reported(slots, reports)
  {
    SignsKeep(slots, Reported(slots, reports), num, listening, book.Keys);
  }

  lemma ReportedAsked(slots: seq<PollFd>, reports: map<int, Revents>)
    requires Reported(slots, reports) == slots
    ensures Asked(slots, 0)
  {
    forall i | 0 <= i < |slots| && slots[i].revents != QUIET ensures slots[i].fd > 0 {
      assert slots[i] == Reported(slots, reports)[i];
    }
  }

  /** The sweep closes just the descriptors of the book whose report says so. */
  lemma ClosedIsHungUp(slots: seq<PollFd>, fds: seq<int>, addrs: seq<Addr>, num: int, listening: bool, book: Book,
                       reports: map<int, Revents>)
    requires Consistent(slots, num, listening, book.Keys) && Lists(slots, fds, addrs, book)
    requires Reported(slots, reports) == slots
    ensures book - ClosedBy(slots, |slots|) == book - HungUp(book, reports)
  {
    ReportsOf(slots, reports);
    forall f | f in HungUp(book, reports) ensures f in ClosedBy(slots, |slots|) {
      assert f in LiveFds(slots);
      var i :| 0 <= i < |slots| && slots[i].fd != 0 && Abs(slots[i].fd) == f;
      assert Gone(slots[i].revents);
    }
    forall f | f in ClosedBy(slots, |slots|) ensures f in HungUp(book, reports) {
      var i :| 0 <= i < |slots| && Gone(slots[i].revents) && slots[i].fd == f;
    }
    assert ClosedBy(slots, |slots|) == HungUp(book, reports);
  }

  /** The sweep gets to serve f within its first k entries. */
  ghost predicate Serves(slots: seq<PollFd>, k: nat, f: int)
    requires k <= |slots|
  {
    exists i :: 0 <= i < k && JustIn(slots[i].revents) && slots[i].fd == f
  }

  /** A sweep over distinct descriptors serves each at most once: once if its entry was just readable. */
  lemma {:induction false} SentOnce(slots: seq<PollFd>, k: nat, f: int)
    requires Distinct(slots) && NonNegative(slots) && Asked(slots, 0) && k <= |slots|
    ensures multiset(SentBy(slots, k))[f] == Bit(Serves(slots, k, f))
  {
    if k > 0 {
      SentOnce(slots, k - 1, f);
      ServesOne(slots, k, f);
    }
  }

  lemma ServesOne(slots: seq<PollFd>, k: nat, f: int)
    requires Distinct(slots) && NonNegative(slots) && Asked(slots, 0) && 0 < k <= |slots|
    ensures Bit(Serves(slots, k, f))
         == Bit(Serves(slots, k - 1, f)) + Bit(JustIn(slots[k - 1].revents) && slots[k - 1].fd == f)
  {
    if JustIn(slots[k - 1].revents) && slots[k - 1].fd == f {
      assert Serves(slots, k, f);
      forall i | 0 <= i < k - 1 ensures slots[i].fd != f {
        assert f > 0;
      }
    } else if Serves(slots, k - 1, f) {
      var i :| 0 <= i < k - 1 && JustIn(slots[i].revents) && slots[i].fd == f;
      assert Serves(slots, k, f);
    }
  }

  /** The first entry from k on at which communication fails, or one past the last. */
  function FailsAt(slots: seq<PollFd>, failing: set<int>, k: nat): (n: nat)
    requires k <= |slots|
    ensures k <= n <= |slots|
    ensures forall i :: k <= i < n ==> !(slots[i].revents == Revents(true, false, false) && slots[i].fd in failing)
    ensures n < |slots| ==> slots[n].revents == Revents(true, false, false) && slots[n].fd in failing
    decreases |slots| - k
  {
    if k == |slots| || (JustIn(slots[k].revents) && slots[k].fd in failing) then k
    else FailsAt(slots, failing, k + 1)
  }

  /** The sweep serves just the descriptors of the book whose report says so, each once. */
  lemma SentIsReady(slots: seq<PollFd>, fds: seq<int>, addrs: seq<Addr>, num: int, listening: bool, book: Book,
                    r: Round, f: int)
    requires Consistent(slots, num, listening, book.Keys) && Lists(slots, fds, addrs, book)
    requires Reported(slots, r.reports) == slots && !r.listenIn
    ensures multiset(SentBy(slots, |slots|))[f] == Ready(book, r, f)
    ensures Serves(slots, |slots|, f) <==> f in book && JustIn(Report(r.reports, f))
  {
    hide SentBy, Reported, NumLive;
    ReportedAsked(slots, r.reports);
    SentOnce(slots, |slots|, f);
    ReportsOf(slots, r.reports);
    if f in book && JustIn(Report(r.reports, f)) {
      assert f in LiveFds(slots);
      var i :| 0 <= i < |slots| && slots[i].fd != 0 && Abs(slots[i].fd) == f;
      assert JustIn(slots[i].revents) && slots[i].fd == f;
    } else {
      hide Consistent;
      forall i | 0 <= i < |slots| ensures !(JustIn(slots[i].revents) && slots[i].fd == f) {
      }
    }
  }

  lemma ReportsOf(slots: seq<PollFd>, reports: map<int, Revents>)
    requires Reported(slots, reports) == slots
    ensures forall i :: 0 <= i < |slots| ==> slots[i].revents == Report(reports, slots[i].fd)
  {
    forall i | 0 <= i < |slots| ensures slots[i].revents == Report(reports, slots[i].fd) {
      assert slots[i] == Reported(slots, reports)[i];
    }
  }

  class Server {
    const capacity: nat
    const listenFd: int
    const clientFds: array<int>
    const clientAddrs: array<Addr>
    const pollfds: array<PollFd>
    var numConnections: nat
    ghost var book: Book      // who is connected
    var served: seq<int>      // descriptors whose request was received and answered, oldest first

    ghost function Table(): seq<PollFd>
      requires pollfds.Length >= 1
      reads pollfds
    {
      pollfds[1..]
    }

    ghost predicate Valid()
      reads this, pollfds, clientAddrs, clientFds
    {
      && capacity > 0
      && pollfds.Length == capacity + 1 && clientFds.Length == capacity && clientAddrs.Length == capacity
      && pollfds[0].fd == listenFd
      && Consistent(Table(), numConnections, pollfds[0].events, book.Keys)
      && Lists(Table(), clientFds[..], clientAddrs[..], book)
    }

    /**
     The counter is the size of the book, so listening is on exactly while there is room; only positive
     descriptors are in it.
     */
    lemma Size()
      requires Valid()
      ensures numConnections == |book| <= capacity
      ensures pollfds[0].events <==> |book| < capacity
      ensures Bounded(book)
    {
      LiveIsOpen(Table());
      forall fd | fd in book ensures fd > 0 {
        assert fd in LiveFds(Table());
      }
    }

    /** No more than the server's capacity, under positive descriptors. */
    predicate Bounded(b: Book) {
      |b| <= capacity && forall fd :: fd in b ==> fd > 0
    }

    /** As run_poll_server sets it up. */
    constructor (capacity: nat, listenFd: int)
      requires capacity > 0
      ensures Valid() && book == map[]
      ensures this.capacity == capacity && this.listenFd == listenFd && served == []
      ensures fresh(pollfds) && fresh(clientAddrs) && fresh(clientFds)
    {
      this.capacity, this.listenFd := capacity, listenFd;
      clientFds := new int[capacity](_ => 0);
      clientAddrs := new Addr[capacity](_ => NO_ADDR);
      pollfds := new PollFd[capacity + 1](_ => EMPTY);
      numConnections, served, book := 0, [], map[];
      new;
      pollfds[0] := PollFd(listenFd, true, QUIET);
      CountNone(LiveMarks(Table()));
    }

    method GetConnIndex() returns (index: nat)
      requires Valid()
      ensures index == FreeIndex(Table())
    {
      index := 0;
      var i := 0;
      while i < clientFds.Length
        invariant 0 <= i <= clientFds.Length && index == 0
        invariant FreeIndex(Table()) == FreeFrom(Table(), i)
      {
        if clientFds[i] == 0 {
          index := i;
          break;
        }
        i := i + 1;
      }
    }

    /** Accepting inserts one entry into the book, in a slot that was free. */
    method PollAccept(got: Accepted) returns (r: int)
      requires Valid() && pollfds[0].events
      requires got.Accepted? ==> got.fd > 0 && got.fd !in book
      modifies `numConnections, `book, pollfds, clientAddrs, clientFds
      ensures Valid()
      ensures got.AcceptFailed? ==> r == -1 && book == old(book) && Table() == old(Table())
      ensures got.Accepted? ==> r == 0 && book == old(book)[got.fd := got.addr]
    {
      hide Consistent, Lists, FreeIndex;
      var i := GetConnIndex();
      if got.AcceptFailed? {
        return -1;
      }
      ghost var was, fds, addrs := Table(), clientFds[..], clientAddrs[..];
      InsertBook(was, fds, addrs, numConnections, book, got.fd, got.addr);
      clientAddrs[i] := got.addr;
      clientFds[i] := got.fd;
      pollfds[i + 1] := pollfds[i + 1].(fd := got.fd);
      pollfds[i + 1] := pollfds[i + 1].(events := true);
      numConnections := numConnections + 1;
      book := book[got.fd := got.addr];
      if numConnections >= capacity {
        pollfds[0] := pollfds[0].(events := false);
      }
      assert Table() == was[i := was[i].(fd := got.fd, events := true)];
      assert clientFds[..] == fds[i := got.fd] && clientAddrs[..] == addrs[i := got.addr];
      r := 0;
    }

    /** Removing deletes one entry from the book and switches listening on. */
    method RemoveConnection(k: nat)
      requires Valid() && 1 <= k < pollfds.Length && pollfds[k].fd > 0
      modifies `numConnections, `book, pollfds, clientAddrs, clientFds
      ensures Valid()
      ensures book == old(book) - {old(pollfds[k].fd)}
      ensures Table() == Cleared(old(Table()), k - 1)
    {
      hide Consistent, Lists;
      ghost var was, fds, addrs := Table(), clientFds[..], clientAddrs[..];
      DeleteBook(was, fds, addrs, numConnections, pollfds[0].events, book, k - 1);
      book := book - {pollfds[k].fd};
      pollfds[k] := EMPTY;
      clientAddrs[k - 1] := NO_ADDR;
      clientFds[k - 1] := 0;
      numConnections := numConnections - 1;
      if !pollfds[0].events && numConnections < capacity {
        pollfds[0] := pollfds[0].(events := true);
      }
      assert Table() == Cleared(was, k - 1);
      assert clientFds[..] == fds[k - 1 := 0] && clientAddrs[..] == addrs[k - 1 := NO_ADDR];
    }

    /** Entry k's request is received, logged and answered (see module ChunkFraming), or that fails. */
    method ReceiveAndLog(k: nat, fails: bool) returns (r: int)
      requires k < pollfds.Length
      modifies `served
      ensures fails ==> r == -1 && served == old(served)
      ensures !fails ==> r == 0 && served == old(served) + [pollfds[k].fd]
    {
      if fails {
        return -1;
      }
      served := served + [pollfds[k].fd];
      r := 0;
    }

    method ResetRevents(k: nat)
      requires Valid() && 1 <= k < pollfds.Length
      modifies pollfds
      ensures Valid()
      ensures Table() == Quieted(old(Table()), k - 1)
    {
      hide Consistent, Lists;
      ghost var was, fds, addrs := Table(), clientFds[..], clientAddrs[..];
      SignKeeps(was, numConnections, pollfds[0].events, book.Keys, k - 1, was[k - 1].(revents := QUIET));
      QuietLists(was, fds, addrs, book, k - 1);
      pollfds[k] := pollfds[k].(revents := QUIET);
      assert Table() == Quieted(was, k - 1);
    }

    /** One turn of the sweep: serve entry k, remove it, or leave it. */
    method VisitEntry(k: nat, fails: bool) returns (r: int)
      requires Valid() && 1 <= k < pollfds.Length
      requires pollfds[k].revents != QUIET ==> pollfds[k].fd > 0
      modifies `numConnections, `book, `served, pollfds, clientAddrs, clientFds
      ensures Valid()
      ensures var x := old(pollfds[k]);
              && r == (if fails && JustIn(x.revents) then -1 else 0)
              && (r == -1 ==> Table() == old(Table()) && served == old(served))
              && (r == 0 ==>
                    && Table() == old(Table())[k - 1 := Left(x)]
                    && served == (if JustIn(x.revents) then old(served) + [x.fd] else old(served)))
              && book == (if Gone(x.revents) then old(book) - {x.fd} else old(book))
    {
      hide Consistent, Lists;
      if JustIn(pollfds[k].revents) {
        r := ReceiveAndLog(k, fails);
        if r == -1 {
          return;
        }
      } else if pollfds[k].revents.hup || pollfds[k].revents.err {
        RemoveConnection(k);
      }
      ResetRevents(k);
      r := 0;
    }

    /**
     The sweep serves every entry that is just readable, in slot order, and deletes every one that has hung
     up, to the end or to the first entry on which communication fails.
     */
    method PollComm(failing: set<int>) returns (r: int)
      requires Valid() && Asked(Table(), 0)
      modifies `numConnections, `book, `served, pollfds, clientAddrs, clientFds
      ensures Valid()
      ensures var done := FailsAt(old(Table()), failing, 0);
              && r == (if done < capacity then -1 else 0)
              && served == old(served) + SentBy(old(Table()), done)
              && book == old(book) - ClosedBy(old(Table()), done)
              && AllTreated(old(Table()), Table(), done, served[|old(served)|..], old(book), book)
    {
      hide Consistent, Lists, SentBy, ClosedBy, LeftTo, AllTreated;
      ghost var was, served0, book0 := Table(), served, book;
      ghost var done := FailsAt(was, failing, 0);
      LeftTreats(was, clientFds[..], clientAddrs[..], numConnections, pollfds[0].events, book, done);
      LeftNone(was, book, served);
      var k := 1;
      while k <= capacity
        invariant 1 <= k <= capacity + 1
        invariant Valid()
        invariant Table() == LeftTo(was, k - 1)
        invariant served == served0 + SentBy(was, k - 1)
        invariant book == book0 - ClosedBy(was, k - 1)
        invariant FailsAt(was, failing, 0) == FailsAt(was, failing, k - 1)
      {
        LeftOne(was, k - 1, book0, served0);
        assert Table()[k - 1] == was[k - 1];
        r := VisitEntry(k, pollfds[k].fd in failing);
        if r == -1 {
          assert served[|served0|..] == SentBy(was, done);
          return;
        }
        k := k + 1;
      }
      assert served[|served0|..] == SentBy(was, done);
      r := 0;
    }

    /** poll fills in revents for every entry. */
    method Poll(listenIn: bool, reports: map<int, Revents>)
      requires Valid() && (listenIn ==> pollfds[0].events)
      modifies pollfds
      ensures Valid()
      ensures JustIn(pollfds[0].revents) <==> listenIn
      ensures pollfds[0].events == old(pollfds[0].events)
      ensures Table() == Reported(old(Table()), reports)
      ensures Reported(Table(), reports) == Table()
    {
      hide Consistent, Lists;
      ghost var was, fds, addrs := Table(), clientFds[..], clientAddrs[..];
      ReportedKeeps(was, fds, addrs, numConnections, pollfds[0].events, book, reports);
      forall i | 1 <= i < pollfds.Length {
        pollfds[i] := pollfds[i].(revents := Report(reports, pollfds[i].fd));
      }
      pollfds[0] := pollfds[0].(revents := Revents(listenIn, false, false));
      assert Table() == Reported(was, reports);
      assert clientFds[..] == fds && clientAddrs[..] == addrs;
    }

    /**
     One iteration of the loop: poll, then either accept or sweep. It does to the book, and to the record of
     services, what the abstract round does, or breaks off where that one does.
     */
    method PollRound(round: Round) returns (r: int)
      requires Valid() && RoundOk(capacity, book, round)
      modifies `numConnections, `book, `served, pollfds, clientAddrs, clientFds
      ensures Valid()
      ensures r == if Breaks(old(book), round) then -1 else 0
      ensures r == 0 ==> book == AfterRound(old(book), round)
      ensures r == 0 ==> forall f :: multiset(served)[f] == multiset(old(served))[f] + Ready(old(book), round, f)
      ensures r == -1 ==> BrokenOff(old(book), round, book)
      ensures r == -1 ==> forall f :: multiset(old(served))[f] <= multiset(served)[f]
                                   <= multiset(old(served))[f]
                                      + (if f in round.failing then 0 else Ready(old(book), round, f))
    {
      hide Consistent, Lists, SentBy, AfterRound, Ready, HungUp, Serves, ClosedBy, Breaks, BrokenOff;
      Size();
      Poll(round.listenIn, round.reports);
      ghost var table, book0 := Table(), book;
      if JustIn(pollfds[0].revents) {
        r := PollAccept(round.accepted);
        AcceptRound(book0, round, book);
      } else {
        ReportedAsked(table, round.reports);
        SweepRound(table, clientFds[..], clientAddrs[..], numConnections, pollfds[0].events, book, round);
        r := PollComm(round.failing);
      }
    }

    /**
     The event loop over a script of rounds, each answered by the kernel. Up to the first round that breaks
     off the book goes through exactly the states of the abstract server, and each descriptor is served just
     as often as it was found readable while in the book; the loop ends with -1 exactly at such a round,
     which leaves what `BrokenOff` says. In every state on the way the book is within capacity.
     */
    method ExecutePoll(rounds: seq<Round>) returns (r: int)
      requires Valid() && RoundsOk(capacity, book, rounds)
      modifies `numConnections, `book, `served, pollfds, clientAddrs, clientFds
      ensures Valid()
      ensures r == if Completed(old(book), rounds) == |rounds| then 0 else -1
      ensures r == 0 ==>
                && book == AfterRounds(old(book), rounds)
                && forall f :: multiset(served)[f] == multiset(old(served))[f] + TimesServed(old(book), rounds, f)
      ensures var n := Completed(old(book), rounds);
              r == -1 ==>
                && BrokenOff(AfterRounds(old(book), rounds[..n]), rounds[n], book)
                && forall f :: multiset(old(served))[f] + TimesServed(old(book), rounds[..n], f) <= multiset(served)[f]
                            <= multiset(old(served))[f] + TimesServed(old(book), rounds[..n + 1], f)
      ensures forall k :: 0 <= k <= Completed(old(book), rounds) ==> Bounded(AfterRounds(old(book), rounds[..k]))
      ensures Bounded(book)
    {
      hide Consistent, Lists, AfterRound, Ready, Breaks, BrokenOff, RoundOk, Bounded, RoundsOk, Completed, TimesServed;
      ghost var book0, served0 := book, served;
      var n := 0;
      assert rounds[0..] == rounds && rounds[..0] == [];
      RoundsNone(book);
      Size();
      while n < |rounds|
        invariant 0 <= n <= |rounds| && Valid()
        invariant RoundsOk(capacity, book, rounds[n..])
        invariant Completed(book0, rounds) == n + Completed(book, rounds[n..])
        invariant book == AfterRounds(book0, rounds[..n]) && Bounded(book)
        invariant forall k :: 0 <= k <= n ==> Bounded(AfterRounds(book0, rounds[..k]))
        invariant forall f :: multiset(served)[f] == multiset(served0)[f] + TimesServed(book0, rounds[..n], f)
      {
        assert rounds[n..][0] == rounds[n] && rounds[n..][1..] == rounds[n + 1..];
        RoundsPush(book0, rounds[..n], rounds[n]);
        RoundsOne(capacity, book, rounds[n..]);
        assert rounds[..n] + [rounds[n]] == rounds[..n + 1];
        r := PollRound(rounds[n]);
        Size();
        if r == -1 {
          return;
        }
        n := n + 1;
      }
      assert rounds[..n] == rounds && rounds[n..] == [];
      RoundsOne(capacity, book, []);
      r := 0;
    }
  }

  lemma AcceptRound(book: Book, r: Round, after: Book)
    requires r.listenIn
    requires after == match r.accepted { case Accepted(fd, addr) => book[fd := addr] case AcceptFailed => book }
    ensures Breaks(book, r) <==> r.accepted.AcceptFailed?
    ensures !Breaks(book, r) ==> after == AfterRound(book, r)
    ensures Breaks(book, r) ==> BrokenOff(book, r, after)
    ensures forall f :: Ready(book, r, f) == 0
  {
  }

  /** The sweep over slots, complete or broken off, against the round on the book. */
  lemma SweepRound(slots: seq<PollFd>, fds: seq<int>, addrs: seq<Addr>, num: int, listening: bool, book: Book, r: Round)
    requires Consistent(slots, num, listening, book.Keys) && Lists(slots, fds, addrs, book)
    requires Reported(slots, r.reports) == slots && !r.listenIn
    ensures var k := FailsAt(slots, r.failing, 0);
            && (Breaks(book, r) <==> k < |slots|)
            && (k == |slots| ==> book - ClosedBy(slots, k) == AfterRound(book, r))
            && (k == |slots| ==> forall f :: multiset(SentBy(slots, k))[f] == Ready(book, r, f))
            && (k < |slots| ==> BrokenOff(book, r, book - ClosedBy(slots, k)))
            && (k < |slots| ==>
                  forall f :: multiset(SentBy(slots, k))[f] <= if f in r.failing then 0 else Ready(book, r, f))
  {
    hide *;
    var k := FailsAt(slots, r.failing, 0);
    SweptBook(slots, fds, addrs, num, listening, book, r, k);
    forall f
      ensures multiset(SentBy(slots, |slots|))[f] == Ready(book, r, f)
      ensures Serves(slots, |slots|, f) <==> f in book && JustIn(Report(r.reports, f))
      ensures multiset(SentBy(slots, k))[f] <= if f in r.failing then 0 else Ready(book, r, f)
    {
      SentIsReady(slots, fds, addrs, num, listening, book, r, f);
      ServedBefore(slots, fds, addrs, num, listening, book, r, k, f);
    }
    BreaksAt(slots, book, r, k);
  }

  lemma SweptBook(slots: seq<PollFd>, fds: seq<int>, addrs: seq<Addr>, num: int, listening: bool, book: Book,
                  r: Round, k: nat)
    requires Consistent(slots, num, listening, book.Keys) && Lists(slots, fds, addrs, book)
    requires Reported(slots, r.reports) == slots && !r.listenIn && k <= |slots|
    ensures k == |slots| ==> book - ClosedBy(slots, k) == AfterRound(book, r)
    ensures BrokenOff(book, r, book - ClosedBy(slots, k))
  {
    hide Consistent, Lists, Reported;
    ClosedIsHungUp(slots, fds, addrs, num, listening, book, r.reports);
    assert ClosedBy(slots, k) <= ClosedBy(slots, |slots|);
    hide ClosedBy, HungUp;
    forall fd | fd in book && fd in ClosedBy(slots, k) ensures fd in HungUp(book, r.reports) {
      assert fd !in book - ClosedBy(slots, |slots|);
    }
  }

  lemma ServedBefore(slots: seq<PollFd>, fds: seq<int>, addrs: seq<Addr>, num: int, listening: bool, book: Book,
                     r: Round, k: nat, f: int)
    requires Consistent(slots, num, listening, book.Keys) && Lists(slots, fds, addrs, book)
    requires Reported(slots, r.reports) == slots && !r.listenIn
    requires k == FailsAt(slots, r.failing, 0)
    ensures multiset(SentBy(slots, k))[f] <= if f in r.failing then 0 else Ready(book, r, f)
  {
    hide SentBy, Reported, NumLive, Serves, FailsAt;
    ReportedAsked(slots, r.reports);
    SentIsReady(slots, fds, addrs, num, listening, book, r, f);
    SentOnce(slots, k, f);
    ServesUpTo(slots, r.failing, k, f);
  }

  /** Of what a sweep serves before it fails, it would have served all, and nothing that fails. */
  lemma ServesUpTo(slots: seq<PollFd>, failing: set<int>, k: nat, f: int)
    requires k == FailsAt(slots, failing, 0)
    ensures Serves(slots, k, f) ==> Serves(slots, |slots|, f) && f !in failing
  {
  }

  lemma BreaksAt(slots: seq<PollFd>, book: Book, r: Round, k: nat)
    requires !r.listenIn && k == FailsAt(slots, r.failing, 0)
    requires forall f :: Serves(slots, |slots|, f) <==> f in book && JustIn(Report(r.reports, f))
    ensures Breaks(book, r) <==> k < |slots|
  {
    if k < |slots| {
      assert Serves(slots, |slots|, slots[k].fd);
    }
    if Breaks(book, r) {
      var fd :| fd in book && fd in r.failing && JustIn(Report(r.reports, fd));
      assert Serves(slots, |slots|, fd);
    }
  }
}
