/**
 * The desktop execution lease: a queue built from chained promises. Slot i waits for the
 * tail of the chain before it, or for its own abort, whichever comes first. A slot whose
 * wait was aborted never runs, and its gate opens once everything before it has finished.
 */
module DesktopLease {
  datatype Slot =
    | Waiting
    | Running
    | Finished
    | Cancelled(passed: bool)  // passed: its gate has opened

  /** Has the slot's own gate promise resolved? */
  predicate GateOpen(s: Slot) {
    s == Finished || s == Cancelled(true)
  }

  /** Has the chain's tail before slot n resolved: `previous.then(() => gate)` for each slot in turn? */
  predicate TailResolved(slots: seq<Slot>, n: nat)
    requires n <= |slots|
  {
    n == 0 || (TailResolved(slots, n - 1) && GateOpen(slots[n - 1]))
  }

  lemma {:induction false} TailMeansAllGates(slots: seq<Slot>, n: nat)
    requires n <= |slots|
    ensures TailResolved(slots, n) <==> forall i | 0 <= i < n :: GateOpen(slots[i])
  {
    if n > 0 { TailMeansAllGates(slots, n - 1); }
  }

  datatype Move =
    | Enter
    | Proceed(i: nat)
    | Abort(i: nat)
    | Finish(i: nat)
    | Pass(i: nat)

  /** The chain of slots, those that started in order, and those whose wait ended by abort. */
  datatype Queue = Queue(slots: seq<Slot>, starts: seq<nat>, aborts: set<nat>) {
    predicate Possible(m: Move) {
      match m
      case Enter => true
      case Proceed(i) => i < |slots| && slots[i].Waiting? && TailResolved(slots, i)
      case Abort(i) => i < |slots| && slots[i].Waiting?
      case Finish(i) => i < |slots| && slots[i].Running?
      case Pass(i) => i < |slots| && slots[i] == Cancelled(false) && TailResolved(slots, i)
    }

    function Next(m: Move): Queue {
      if !Possible(m) then this
      else match m
        case Enter => this.(slots := slots + [Waiting])
        case Proceed(i) => this.(slots := slots[i := Running], starts := starts + [i])
        case Abort(i) => this.(slots := slots[i := Cancelled(false)], aborts := aborts + {i})
        case Finish(i) => this.(slots := slots[i := Finished])
        case Pass(i) => this.(slots := slots[i := Cancelled(true)])
    }

    function After(moves: seq<Move>): Queue {
      if moves == [] then this else After(moves[..|moves| - 1]).Next(moves[|moves| - 1])
    }
  }

  /** The slots that ran, in the order they started. */
  ghost predicate Fifo(starts: seq<nat>) {
    forall a, b | 0 <= a < b < |starts| :: starts[a] < starts[b]
  }

  class Lease {
    var slots: seq<Slot>
    /** Every slot that ever started, in order. */
    ghost var starts: seq<nat>
    /** Every slot whose wait ended by abort. */
    ghost var aborts: set<nat>

    constructor ()
      ensures Valid() && slots == [] && starts == [] && aborts == {}
    {
      slots, starts, aborts := [], [], {};
    }

    ghost predicate Valid()
      reads this
    {
      && (forall i | 0 <= i < |slots| && slots[i].Running? :: forall j | 0 <= j < i :: GateOpen(slots[j]))
      && (forall i | 0 <= i < |slots| && GateOpen(slots[i]) :: forall j | 0 <= j < i :: GateOpen(slots[j]))
      && (forall k | 0 <= k < |starts| ::
            starts[k] < |slots| && (slots[starts[k]].Running? || slots[starts[k]].Finished?))
      && (forall i | 0 <= i < |slots| && (slots[i].Running? || slots[i].Finished?) :: i in starts)
      && Fifo(starts)
      && (forall i: nat :: i in aborts <==> i < |slots| && slots[i].Cancelled?)
    }

    /** Mutual exclusion, order of arrival, and no slot that was aborted among those that ran. */
    ghost predicate Safe()
      reads this
    {
      && (forall i, j | 0 <= i < |slots| && 0 <= j < |slots| && slots[i].Running? && slots[j].Running? :: i == j)
      && Fifo(starts)
      && (forall i | i in aborts :: i !in starts)
      && (forall i, j | 0 <= i < j < |slots| && j in starts :: slots[i].Finished? || slots[i] == Cancelled(true))
    }

    lemma ValidIsSafe()
      requires Valid()
      ensures Safe()
    {
    }

    /** Join the queue behind every slot that came before. */
    method Enter() returns (i: nat)
      requires Valid()
      modifies this
      ensures Valid()
      ensures i == |old(slots)| && slots == old(slots) + [Waiting] && starts == old(starts) && aborts == old(aborts)
    {
      i := |slots|;
      slots := slots + [Waiting];
      assert forall k | 0 <= k < |old(slots)| :: slots[k] == old(slots)[k];
    }

    /** The wait ended because everything before the slot has finished: it runs. */
    method Proceed(i: nat)
      requires Valid()
      requires i < |slots| && slots[i].Waiting? && TailResolved(slots, i)
      modifies this
      ensures Valid()
      ensures slots == old(slots)[i := Running] && starts == old(starts) + [i] && aborts == old(aborts)
    {
      TailMeansAllGates(slots, i);
      assert !GateOpen(slots[i]);
      assert forall k | 0 <= k < |starts| :: starts[k] < i;
      slots := slots[i := Running];
      starts := starts + [i];
      assert forall k | 0 <= k < |old(starts)| :: starts[k] == old(starts)[k];
      assert starts[|old(starts)|] == i;
    }

    /** The wait ended by abort: the slot gives up, and its gate will open behind its predecessors. */
    method Abort(i: nat)
      requires Valid()
      requires i < |slots| && slots[i].Waiting?
      modifies this
      ensures Valid()
      ensures slots == old(slots)[i := Cancelled(false)] && starts == old(starts) && aborts == old(aborts) + {i}
    {
      slots := slots[i := Cancelled(false)];
      aborts := aborts + {i};
    }

    /** `previous.finally(release)` of a slot that gave up. */
    method Pass(i: nat)
      requires Valid()
      requires i < |slots| && slots[i] == Cancelled(false) && TailResolved(slots, i)
      modifies this
      ensures Valid()
      ensures slots == old(slots)[i := Cancelled(true)] && starts == old(starts) && aborts == old(aborts)
    {
      TailMeansAllGates(slots, i);
      slots := slots[i := Cancelled(true)];
    }

    /** The action ended, well or badly: release. */
    method Finish(i: nat)
      requires Valid()
      requires i < |slots| && slots[i].Running?
      modifies this
      ensures Valid()
      ensures slots == old(slots)[i := Finished] && starts == old(starts) && aborts == old(aborts)
    {
      slots := slots[i := Finished];
    }

    /**
     * Nobody runs and somebody waits: the chain's own steps hand the lease to the earliest
     * waiter, through any number of cancelled slots.
     */
    method HandOver() returns (i: nat)
      requires Valid()
      requires forall j | 0 <= j < |slots| :: !slots[j].Running?
      requires exists j :: 0 <= j < |slots| && slots[j].Waiting?
      modifies this
      ensures Valid()
      ensures |slots| == |old(slots)| && i < |slots| && old(slots)[i].Waiting? && slots[i].Running?
      ensures forall j | 0 <= j < i :: old(slots)[j] == Finished || old(slots)[j].Cancelled?
      ensures slots[i + 1..] == old(slots)[i + 1..]
      ensures starts == old(starts) + [i] && aborts == old(aborts)
    {
      hide Lease.Valid;
      ghost var waiter :| 0 <= waiter < |slots| && slots[waiter].Waiting?;
      i := 0;
      while !slots[i].Waiting?
        invariant Valid() && |slots| == |old(slots)| && i < |slots|
        invariant forall j | i <= j < |slots| :: slots[j] == old(slots)[j]
        invariant forall j | 0 <= j < i :: GateOpen(slots[j]) && !old(slots)[j].Waiting?
        invariant forall j | 0 <= j < |slots| :: !old(slots)[j].Running?
        invariant i <= waiter < |slots| && old(slots)[waiter].Waiting?
        invariant starts == old(starts) && aborts == old(aborts)
        decreases |slots| - i
      {
        TailMeansAllGates(slots, i);
        if slots[i] == Cancelled(false) { Pass(i); }
        i := i + 1;
      }
      TailMeansAllGates(slots, i);
      Proceed(i);
    }

    ghost function Now(): Queue
      reads this
    {
      Queue(slots, starts, aborts)
    }

    method Handle(m: Move)
      requires Valid()
      modifies this
      ensures Valid() && Now() == old(Now()).Next(m)
    {
      hide Lease.Valid;
      match m
      case Enter => var i := Enter();
      case Proceed(i) => if i < |slots| && slots[i].Waiting? && TailResolved(slots, i) { Proceed(i); }
      case Abort(i) => if i < |slots| && slots[i].Waiting? { Abort(i); }
      case Finish(i) => if i < |slots| && slots[i].Running? { Finish(i); }
      case Pass(i) => if i < |slots| && slots[i] == Cancelled(false) && TailResolved(slots, i) { Pass(i); }
    }

    /** Every interleaving of arrivals, aborts and actions, over any number of slots. */
    method Run(moves: seq<Move>)
      requires Valid()
      modifies this
      ensures Valid() && Safe() && Now() == old(Now()).After(moves)
    {
      hide Lease.Valid, Queue.Next;
      for k := 0 to |moves|
        invariant Valid() && Now() == old(Now()).After(moves[..k])
      {
        assert moves[..k + 1][..k] == moves[..k];
        Handle(moves[k]);
      }
      assert moves[..|moves|] == moves;
      ValidIsSafe();
    }
  }

  /**
   * The queue never stalls: with nobody running and somebody waiting, some slot can run or
   * pass its turn on, and it is the first one whose gate is still shut.
   */
  lemma {:induction false} NeverStalls(slots: seq<Slot>, n: nat)
    requires forall i | 0 <= i < |slots| :: !slots[i].Running?
    requires n <= |slots| && TailResolved(slots, n)
    requires exists i :: n <= i < |slots| && slots[i].Waiting?
    ensures exists i :: 0 <= i < |slots| && TailResolved(slots, i) && (slots[i].Waiting? || slots[i] == Cancelled(false))
    decreases |slots| - n
  {
    if GateOpen(slots[n]) {
      NeverStalls(slots, n + 1);
    } else {
      assert slots[n].Waiting? || slots[n] == Cancelled(false);
    }
  }
}
