/** Consequences of the invariant for every reachable interleaving of parent, children and clients. */
module Safety {
  import opened Bytes
  import opened Counting
  import opened Slots
  import opened Protocol
  import opened Invariant
  import opened Steps

  /** Processes between taking one domain semaphore and posting the other. */
  function InsideHandOff(s: State): nat {
    Count(ReadingMarks(s.children)) + Count(PostingMarks(s.children)) + Bit(s.pc.Sending?) + Bit(s.pc.PostingRead?)
  }

  /**
   Each semaphore guards one token, wherever it is; so the stream socket and the pipe, which keep no
   boundaries, never hold two messages, whoever writes finds them empty and whoever reads finds one.
   */
  lemma TokenConservation(cfg: Config, s: State)
    requires Reachable(cfg, s)
    ensures s.domWrite + s.domRead + InsideHandOff(s) == 1
    ensures s.pipeSem + Count(NotifyMarks(s.children)) + |s.pipe| + Bit(s.pc.PostingPipe?) == 1
    ensures s.logSem + Count(LogMarks(s.children)) == 1
    ensures |s.socket| <= 1 && |s.pipe| <= 1
    ensures s.pc.Sending? ==> s.socket == []
    ensures forall i :: 0 <= i < |s.children| && s.children[i].RecvMsg? ==> |s.socket| == 1
    ensures forall i :: 0 <= i < |s.children| && s.children[i].WritePipe? ==> s.pipe == []
  {
    ReachableHasInv(cfg, s);
    forall i | 0 <= i < |s.children| && s.children[i].RecvMsg? ensures |s.socket| == 1 {
      CountSome(ReadingMarks(s.children), i);
    }
    forall i | 0 <= i < |s.children| && s.children[i].WritePipe? ensures s.pipe == [] {
      CountSome(NotifyMarks(s.children), i);
    }
  }

  /** The parent polls slot i for input: it is positive, and its message is not already on the way. */
  predicate Polled(s: State, i: nat)
    requires i < |s.slots|
  {
    s.slots[i].fd > 0 && i != Window(s.pc)
  }

  /**
   Every live connection is in exactly one place: polled by the parent, in the domain socket, with one
   child up to its pipe write, in the pipe, or in the parent's hand.
   */
  lemma OwnershipPartition(cfg: Config, s: State, i: nat)
    requires Reachable(cfg, s)
    requires i < |s.slots| && s.slots[i].fd != 0
    ensures var f := Abs(s.slots[i].fd);
            && f in s.open
            && Bit(Polled(s, i)) + Count(SocketMarks(s.socket, f)) + Count(ChildMarks(s.children, f))
                 + Count(PipeMarks(s.pipe, f)) + Bit(Hand(s.pc, f)) == 1
  {
    ReachableHasInv(cfg, s);
    var f := Abs(s.slots[i].fd);
    assert f in LiveFds(s.slots);
    assert Holders(s.children, s.socket, s.pipe, s.pc, f) == Count(OutAs(s.slots, Window(s.pc), f));
    if Polled(s, i) {
      EnabledNotOut(s.slots, Window(s.pc), i);
    } else {
      CountSome(OutAs(s.slots, Window(s.pc), f), i);
      OutOnce(s.slots, Window(s.pc), f);
    }
  }

  /** And a number in any of these places is that of one live connection, which is not polled meanwhile. */
  lemma HeldIsLive(cfg: Config, s: State, f: int) returns (i: nat)
    requires Reachable(cfg, s) && Holders(s.children, s.socket, s.pipe, s.pc, f) > 0
    ensures i < |s.slots| && s.slots[i].fd != 0 && Abs(s.slots[i].fd) == f && f in s.open && !Polled(s, i)
    ensures forall j :: 0 <= j < |s.slots| && s.slots[j].fd != 0 && Abs(s.slots[j].fd) == f ==> j == i
  {
    ReachableHasInv(cfg, s);
    assert Holders(s.children, s.socket, s.pipe, s.pc, f) == Count(OutAs(s.slots, Window(s.pc), f));
    i := HeldNamesSlot(s.slots, Window(s.pc), f);
    assert s.slots[i].fd != 0;
    assert f in LiveFds(s.slots);
  }

  /** Two holders of one number would count for two. */
  lemma OneHolder(cfg: Config, s: State, f: int)
    requires Inv(cfg, s)
    ensures Holders(s.children, s.socket, s.pipe, s.pc, f) <= 1
  {
    assert Holders(s.children, s.socket, s.pipe, s.pc, f) == Count(OutAs(s.slots, Window(s.pc), f));
    OutOnce(s.slots, Window(s.pc), f);
  }

  lemma SameConnSameFd(cfg: Config, s: State, f: int, f': int, c: nat)
    requires Inv(cfg, s) && Names(s.open, f, c) && Names(s.open, f', c)
    ensures f == f'
  {
  }

  /** Two children never receive from one connection, and none receives what is still queued or already reported. */
  lemma OneReceiver(cfg: Config, s: State, i: nat)
    requires Reachable(cfg, s)
    requires i < |s.children| && Holding(s.children[i])
    ensures forall j :: 0 <= j < |s.children| && j != i && Holding(s.children[j]) ==>
              s.children[j].conn != s.children[i].conn
    ensures forall k :: 0 <= k < |s.socket| ==> s.socket[k].conn != s.children[i].conn
    ensures forall k :: 0 <= k < |s.pipe| ==> s.pipe[k].conn != s.children[i].conn
    ensures InHand(s.pc) ==> s.pc.conn != s.children[i].conn
  {
    ReachableHasInv(cfg, s);
    var f, c := s.children[i].fd, s.children[i].conn;
    OneHolder(cfg, s, f);
    ChildCounts(s.children, i);
    forall j | 0 <= j < |s.children| && j != i && Holding(s.children[j]) ensures s.children[j].conn != c {
      if s.children[j].conn == c {
        SameConnSameFd(cfg, s, f, s.children[j].fd, c);
        CountTwo(ChildMarks(s.children, f), if i < j then i else j, if i < j then j else i);
      }
    }
    forall k | 0 <= k < |s.socket| ensures s.socket[k].conn != c {
      if s.socket[k].conn == c {
        SameConnSameFd(cfg, s, f, s.socket[k].fd, c);
        SocketCounts(s.socket, k);
      }
    }
    forall k | 0 <= k < |s.pipe| ensures s.pipe[k].conn != c {
      if s.pipe[k].conn == c {
        SameConnSameFd(cfg, s, f, s.pipe[k].fd, c);
        PipeCounts(s.pipe, k);
      }
    }
  }

  /**
   A number read from the pipe re-enables the connection it was dispatched for, however often numbers
   were closed and reused: exactly one slot holds its negation, the number still names the connection
   the child served, and the re-enable loop flips that slot and no other.
   */
  lemma NoStaleCompletion(cfg: Config, s: State) returns (i: nat)
    requires Reachable(cfg, s) && s.pc.Reenabling?
    ensures i < |s.slots| && s.slots[i].fd == -s.pc.fd < 0
    ensures forall j :: 0 <= j < |s.slots| && s.slots[j].fd == -s.pc.fd ==> j == i
    ensures Names(s.open, s.pc.fd, s.pc.conn)
    ensures ApplyParent(cfg, s).slots == s.slots[i := s.slots[i].(fd := s.pc.fd)]
  {
    ReachableHasInv(cfg, s);
    i := HandNamesSlot(s.children, s.socket, s.pipe, s.pc, s.slots);
    ReenableIsOneFlip(s.slots, i);
  }

  /** The number that comes out of the pipe is the one that a child put in for the connection it received. */
  lemma CompletionIsCarried(cfg: Config, s: State, garbage: seq<byte>, i: nat)
    requires Reachable(cfg, s) && |garbage| == 4
    requires i < |s.children| && s.children[i].WritePipe?
    ensures ApplyChild(s, i, garbage).pipe == [Note(s.children[i].fd, s.children[i].conn)]
    ensures Names(s.open, s.children[i].fd, s.children[i].conn)
  {
    TokenConservation(cfg, s);
    ReachableHasInv(cfg, s);
  }

  /** The parent closes only enabled slots, and never a connection that anyone still holds. */
  lemma CloseIsSafe(cfg: Config, s: State)
    requires Reachable(cfg, s)
    requires s.pc.Scanning? && s.pc.slot < |s.slots| && Gone(s.slots[s.pc.slot].revents)
    ensures s.slots[s.pc.slot].fd > 0 && s.slots[s.pc.slot].fd in s.open
    ensures Holders(s.children, s.socket, s.pipe, s.pc, s.slots[s.pc.slot].fd) == 0
    ensures forall j :: 0 <= j < |s.children| && Holding(s.children[j]) ==>
              s.children[j].conn != s.open[s.slots[s.pc.slot].fd]
  {
    ReachableHasInv(cfg, s);
    var f := s.slots[s.pc.slot].fd;
    assert Abs(f) in LiveFds(s.slots);
    EnabledNotOut(s.slots, -1, s.pc.slot);
    assert Holders(s.children, s.socket, s.pipe, s.pc, f) == Count(OutAs(s.slots, -1, f));
    EnabledUnheld(s.children, s.socket, s.pipe, s.pc, s.slots, s.pc.slot);
  }

  /** Slot accounting in every reachable state, disabled entries included. */
  lemma SlotAccounting(cfg: Config, s: State)
    requires Reachable(cfg, s)
    ensures s.num == NumLive(s.slots) == |s.open|
    ensures 0 <= s.num <= cfg.capacity
    ensures s.listening <==> s.num < cfg.capacity
    ensures Distinct(s.slots)
    ensures s.pc.Accepting? ==> FreeIndex(s.slots) < |s.slots| && s.slots[FreeIndex(s.slots)].fd == 0
  {
    ReachableHasInv(cfg, s);
    LiveIsOpen(s.slots);
    assert |s.open| == |s.open.Keys|;
    if s.pc.Accepting? {
      FreeIndexIsFree(s.slots);
    }
  }
}
