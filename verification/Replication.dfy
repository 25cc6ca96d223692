/** The hot standby: apply, then confirm, in the order the primary sent. */
module Replication {
  import opened Auction
  import opened Bounded
  import opened History
  import opened Rules
  import opened Soundness
  import Committer
  import Machine
  import Recovery

  /** The published confirmation mark. */
  class Confirmation {
    var seqno: Option<U64>

    constructor ()
      ensures seqno == None
    {
      seqno := None;
    }

    /** Advance the mark, if that is forward. */
    method Publish(seqno: U64)
      modifies this
      ensures Committer.AtMost(old(this.seqno), this.seqno) && Committer.AtMost(Some(seqno), this.seqno)
      ensures this.seqno == Some(seqno) || this.seqno == old(this.seqno)
    {
      if this.seqno.Some? && this.seqno.value >= seqno {
        return;
      }
      this.seqno := Some(seqno);
    }

    /** `wait_for`: look at the mark, then sleep and look again, until it covers the target or a sleep
        runs out of time. `wakes` are the ends of those sleeps. */
    method WaitFor(target: U64, wakes: seq<Wake>) returns (wait: Patience)
      ensures wait == Confirmed <==>
                exists n :: 0 <= n <= |wakes| && Covered(Seen(seqno, wakes, n), target) && Patient(wakes, n)
      ensures wait == Lost <==>
                exists n :: 0 <= n < |wakes| && Patient(wakes, n) && wakes[n].timedOut
                            && forall m :: 0 <= m <= n ==> !Covered(Seen(seqno, wakes, m), target)
    {
      var mark, i := seqno, 0;
      while !Covered(mark, target)
        invariant i <= |wakes| && mark == Seen(seqno, wakes, i) && Patient(wakes, i)
        invariant forall m :: 0 <= m < i ==> !Covered(Seen(seqno, wakes, m), target)
        decreases |wakes| - i
      {
        if i == |wakes| {
          return Waiting;
        }
        if wakes[i].timedOut {
          assert forall n :: i < n ==> !Patient(wakes, n);
          return Lost;
        }
        mark, i := wakes[i].mark, i + 1;
      }
      wait := Confirmed;
    }
  }

  /** The end of one sleep: the mark as it then stands, and whether time ran out. */
  datatype Wake = Wake(mark: Option<U64>, timedOut: bool)

  datatype Patience = Confirmed | Lost | Waiting

  predicate Covered(mark: Option<U64>, target: U64) {
    Committer.AtMost(Some(target), mark)
  }

  /** The mark at the `n`-th look. */
  function Seen(first: Option<U64>, wakes: seq<Wake>, n: nat): Option<U64>
    requires n <= |wakes|
  {
    if n == 0 then first else wakes[n - 1].mark
  }

  /** None of the first `n` sleeps ran out of time. */
  ghost predicate Patient(wakes: seq<Wake>, n: nat) {
    n <= |wakes| && forall i :: 0 <= i < n ==> !wakes[i].timedOut
  }

  /** Nothing is confirmed that the standby has not applied. */
  ghost predicate Honest(standby: Machine.AuctionState, mark: Confirmation)
    reads standby, standby.resting, mark
  {
    standby.Valid() && Committer.AtMost(mark.seqno, standby.lastSeq)
  }

  /** `follow`: a standby that holds a run continues it, and confirms exactly what it has applied. */
  method Follow(standby: Machine.AuctionState, mark: Confirmation, received: seq<LogRecord>, ghost log: seq<LogRecord>)
    requires Honest(standby, mark) && WellLogged(log + received)
    requires standby.Model() == Run(standby.config, log).st
    modifies standby, standby.resting, mark
    ensures Honest(standby, mark) && Committer.AtMost(old(mark.seqno), mark.seqno)
    ensures standby.Model() == Run(standby.config, log + received).st
    ensures received != [] ==> mark.seqno == standby.lastSeq == Some(received[|received| - 1].seqno)
  {
    hide Apply, Run;
    assert log + received[..0] == log;
    for i := 0 to |received|
      invariant Honest(standby, mark) && Committer.AtMost(old(mark.seqno), mark.seqno)
      invariant standby.Model() == Run(standby.config, log + received[..i]).st
      invariant i > 0 ==> mark.seqno == standby.lastSeq == Some(received[i - 1].seqno)
    {
      ghost var before := log + received[..i];
      assert log + received[..i + 1] == before + [received[i]];
      Continues(log, received, i);
      RunStep(standby.config, before, received[i]);
      RunsFollow(standby.config, before, received[i]);
      ApplyIsSound(standby.config, Run(standby.config, before).st, received[i]);
      Recovery.Follow(standby, received[i]);
      assert standby.lastSeq == standby.Model().lastSeq == Some(received[i].seqno);
      mark.Publish(received[i].seqno);
    }
    assert received[..|received|] == received;
  }

  lemma Continues(log: seq<LogRecord>, received: seq<LogRecord>, i: nat)
    requires WellLogged(log + received) && i < |received|
    ensures WellLogged((log + received[..i]) + [received[i]])
  {
    assert (log + received[..i]) + [received[i]] == (log + received)[..|log| + i + 1];
  }
}
