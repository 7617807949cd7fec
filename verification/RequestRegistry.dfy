/** The table of pending core requests. Responses, write errors, timeouts and mass rejections
    race to settle an entry. */
module RequestRegistry {
  datatype Method = CaptureStop | CaptureStart | CaptureStatus | OtherMethod

  datatype How = Answered | Rejected | TimedOut | MassRejected

  /** The table, with a log of every settlement: how an id was settled and how often. */
  datatype Registry = Registry(pending: map<nat, Method>, issued: set<nat>, outcomes: map<nat, How>, settled: multiset<nat>)

  const EMPTY := Registry(map[], {}, map[], multiset{})

  function Register(r: Registry, id: nat, m: Method): Registry {
    r.(pending := r.pending[id := m], issued := r.issued + {id})
  }

  /** resolve, reject and the timer callback: settle the entry if it is still there. */
  function Settle(r: Registry, id: nat, how: How): Registry {
    if id !in r.pending then r
    else Registry(r.pending - {id}, r.issued, r.outcomes[id := how], r.settled + multiset{id})
  }

  function MassRejection(ids: set<nat>): map<nat, How> {
    map id | id in ids :: MassRejected
  }

  function SettleAll(r: Registry): Registry {
    Registry(map[], r.issued, r.outcomes + MassRejection(r.pending.Keys), r.settled + multiset(r.pending.Keys))
  }

  /** Every issued request is either pending and unsettled, or gone and settled exactly once. */
  ghost predicate ExactlyOnce(r: Registry) {
    && r.pending.Keys !! r.outcomes.Keys
    && r.issued == r.pending.Keys + r.outcomes.Keys
    && r.settled == multiset(r.outcomes.Keys)
  }

  lemma RegisterKeepsExactlyOnce(r: Registry, id: nat, m: Method)
    requires ExactlyOnce(r) && id !in r.issued
    ensures ExactlyOnce(Register(r, id, m))
  {}

  lemma SettleKeepsExactlyOnce(r: Registry, id: nat, how: How)
    requires ExactlyOnce(r)
    ensures ExactlyOnce(Settle(r, id, how))
    ensures Settle(r, id, how).issued == r.issued
    ensures Settle(r, id, how).pending.Keys == r.pending.Keys - {id}
  {
    if id in r.pending {
      DisjointSum(r.outcomes.Keys, {id});
      KeysOfUpdate(r.outcomes, id, how);
      KeysOfRemoval(r.pending, id);
    }
  }

  lemma KeysOfUpdate(outcomes: map<nat, How>, id: nat, how: How)
    ensures outcomes[id := how].Keys == outcomes.Keys + {id}
  {}

  lemma KeysOfRemoval(pending: map<nat, Method>, id: nat)
    ensures (pending - {id}).Keys == pending.Keys - {id}
  {}

  lemma SettleAllKeepsExactlyOnce(r: Registry)
    requires ExactlyOnce(r)
    ensures ExactlyOnce(SettleAll(r))
    ensures SettleAll(r).issued == r.issued
  {
    assert MassRejection(r.pending.Keys).Keys == r.pending.Keys;
    DisjointSum(r.outcomes.Keys, r.pending.Keys);
  }

  /** One turn of the rejecting loop, from `rest` to `gone`. */
  lemma RejectOne(outcomes: map<nat, How>, count: multiset<nat>, rest: set<nat>, gone: set<nat>, id: nat)
    requires id in rest && rest !! gone
    ensures (outcomes + MassRejection(gone))[id := MassRejected] == outcomes + MassRejection(gone + {id})
    ensures (count + multiset(gone)) + multiset{id} == count + multiset(gone + {id})
    ensures (rest - {id}) !! (gone + {id}) && (rest - {id}) + (gone + {id}) == rest + gone
  {
    DisjointSum(gone, {id});
  }

  lemma DisjointSum(a: set<nat>, b: set<nat>)
    requires a !! b
    ensures multiset(a + b) == multiset(a) + multiset(b)
  {}

  /** What is settled stays settled the same way. */
  lemma OutcomesStand(r: Registry, id: nat, how: How, settledId: nat)
    requires ExactlyOnce(r) && settledId in r.outcomes
    ensures settledId in Settle(r, id, how).outcomes && Settle(r, id, how).outcomes[settledId] == r.outcomes[settledId]
    ensures settledId in SettleAll(r).outcomes && SettleAll(r).outcomes[settledId] == r.outcomes[settledId]
  {}

  class RequestRegistry {
    var pending: map<nat, Method>
    var issued: set<nat>
    var outcomes: map<nat, How>
    var settled: multiset<nat>

    ghost function View(): Registry
      reads this
    {
      Registry(pending, issued, outcomes, settled)
    }

    constructor ()
      ensures View() == EMPTY && ExactlyOnce(View())
    {
      pending, issued, outcomes, settled := map[], {}, map[], multiset{};
    }

    /** register; false stands for the duplicate-id error. */
    method Add(id: nat, m: Method) returns (ok: bool)
      modifies this
      ensures ok <==> id !in old(pending)
      ensures View() == if ok then Register(old(View()), id, m) else old(View())
    {
      if id in pending {
        return false;
      }
      pending := pending[id := m];
      issued := issued + {id};
      ok := true;
    }

    method SettleOne(id: nat, how: How) returns (found: bool)
      modifies this
      ensures View() == Settle(old(View()), id, how)
      ensures found <==> id in old(pending)
    {
      found := id in pending;
      if found {
        pending := pending - {id};
        outcomes := outcomes[id := how];
        settled := settled + multiset{id};
      }
    }

    method RejectAll()
      modifies this
      ensures View() == SettleAll(old(View()))
    {
      outcomes, settled := RejectEach(pending.Keys, outcomes, settled);
      pending := map[];
    }
  }

  /** The loop of rejectAll over the pending entries. */
  method RejectEach(ids: set<nat>, before: map<nat, How>, count: multiset<nat>)
    returns (outcomes: map<nat, How>, settled: multiset<nat>)
    ensures outcomes == before + MassRejection(ids)
    ensures settled == count + multiset(ids)
  {
    outcomes, settled := before, count;
    var rest := ids;
    ghost var gone: set<nat> := {};
    assert before + MassRejection(gone) == before;
    while rest != {}
      invariant rest !! gone && rest + gone == ids
      invariant outcomes == before + MassRejection(gone)
      invariant settled == count + multiset(gone)
      decreases rest
    {
      var id :| id in rest;
      RejectOne(before, count, rest, gone, id);
      outcomes := outcomes[id := MassRejected];
      settled := settled + multiset{id};
      rest, gone := rest - {id}, gone + {id};
    }
    assert gone == ids;
  }
}
