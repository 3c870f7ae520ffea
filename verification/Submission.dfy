/** What a submission keeps alive until its device work is known to be over. */
module Submission {
  import opened Prelude

  /** The non-blocking answer to a stream query. */
  datatype Health = Capturing | Busy | Idle | Faulted

  /** How a blocking wait for the stream goes: binding the context, probing, and synchronizing if busy. */
  datatype WaitEnv = WaitEnv(bindOk: bool, health: Health, syncOk: bool) {
    predicate Proves() { bindOk && (health.Idle? || (health.Busy? && syncOk)) }
  }

  datatype Owner = Lease(owner: nat, id: nat) | Other(owner: nat)

  datatype OwnerSet = OwnerSet(leases: seq<Owner>, others: seq<Owner>) {
    predicate IsEmpty() { leases == [] && others == [] }
    ghost function All(): multiset<Owner> { multiset(leases) + multiset(others) }

    function With(o: Owner): OwnerSet {
      if o.Lease? then this.(leases := leases + [o]) else this.(others := others + [o])
    }

    lemma WithAll(o: Owner)
      ensures With(o).All() == All() + multiset{o}
    {
    }
  }

  /** `retained`, `released`, `leaked` and `refused` are the ledger; `done` is evidence that the device work is over. */
  class Submission {
    var owners: Option<OwnerSet>
    ghost var retained: multiset<Owner>
    ghost var released: multiset<Owner>
    ghost var leaked: multiset<Owner>
    ghost var refused: multiset<Owner>
    ghost var done: bool

    ghost function Held(): multiset<Owner>
      reads this
    {
      if owners.Some? then owners.value.All() else multiset{}
    }

    /** Every owner is held, released or leaked, never two of them, and released only when the work is over. */
    ghost predicate Valid()
      reads this
    {
      && (released != multiset{} ==> done)
      && if owners.Some? then retained == owners.value.All() && released == multiset{} == leaked
         else retained == released + leaked
    }

    constructor ()
      ensures Valid() && owners == Some(OwnerSet([], [])) && !done
      ensures retained == multiset{} && refused == multiset{}
    {
      owners := Some(OwnerSet([], []));
      retained, released, leaked, refused, done := multiset{}, multiset{}, multiset{}, multiset{}, false;
    }

    /** Takes an owner in, or drops it at once when the submission has completed. */
    method Retain(o: Owner) returns (ok: bool)
      requires Valid()
      modifies this
      ensures Valid() && done == old(done) && released == old(released) && leaked == old(leaked)
      ensures (ok <==> old(owners).Some?) && (ok <==> owners.Some?)
      ensures Held() == (if ok then old(Held()) + multiset{o} else old(Held()))
      ensures refused == (if ok then old(refused) else old(refused) + multiset{o})
    {
      if owners.None? {
        refused := refused + multiset{o};
        return false;
      }
      var kept := owners.value;
      kept.WithAll(o);
      hide OwnerSet.All, OwnerSet.With;
      owners := Some(kept.With(o));
      retained := retained + multiset{o};
      ok := true;
    }

    /** Releases everything; the caller vouches that the work is over. */
    method Complete()
      requires Valid()
      modifies this
      ensures Valid() && done && owners.None? && retained == old(retained) && leaked == old(leaked) && refused == old(refused)
      ensures released == old(released) + old(Held())
    {
      released := released + Held();
      done := true;
      owners := None;
    }

    /** Dropping: wait for the stream if anything is held, and leak what cannot be proved unused. */
    method Drop(w: WaitEnv, ghost finished: bool)
      requires Valid() && (w.Proves() ==> finished) && (done ==> finished)
      modifies this
      ensures Valid() && owners.None? && retained == old(retained) && (done ==> finished)
      ensures if old(Held()) == multiset{} || (w.bindOk && (w.health.Idle? || (w.health.Busy? && w.syncOk)))
              then leaked == old(leaked) && released == old(released) + old(Held())
              else leaked == old(leaked) + old(Held()) && released == old(released)
    {
      if owners.None? {
        return;
      }
      var kept := owners.value;
      owners := None;
      if !kept.IsEmpty() && !w.Proves() {
        assert kept.leases != [] ==> kept.leases[0] in kept.All();
        assert kept.others != [] ==> kept.others[0] in kept.All();
        leaked := leaked + kept.All();
      } else {
        released := released + kept.All();
        done := done || w.Proves();
      }
    }
  }
}
