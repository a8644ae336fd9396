/** `Budget` and `Lease` of src/service/budget.h, one method per section the
    source runs under the budget's lock. Each method is proved against the
    value-level operations of `Ledgers`. */
module Budgets {
  import opened Ledgers

  datatype Polled = Granted(lease: Lease) | LeftLine | StillWaiting

  class Budget {
    const capacity: nat
    var used: nat
    var line: seq<Waiter<nat>>  // a ticket stands for the list iterator `me`
    var next: nat
    ghost var held: map<nat, nat>
    ghost var granted: seq<nat>
    ghost var left: set<nat>
    ghost var owner: map<nat, Lease>  // the live lease of each held ticket

    ghost function State(): Ledger<nat>
      reads this
    {
      Ledger(capacity, used, line, held, next, granted, left)
    }

    /** Exactly one lease object stands behind each held amount. */
    ghost predicate Owned()
      reads this, owner.Values
    {
      && owner.Keys == held.Keys
      && forall t :: t in owner ==>
           owner[t].budget == this && owner[t].ticket == t && owner[t].amount == held[t]
    }

    ghost predicate Valid()
      reads this, owner.Values
    {
      && Ledgers.Valid(State())
      && (forall j :: 0 <= j < |line| ==> line[j].owner == line[j].ticket < next)
      && (forall t :: t in held ==> t < next)
      && Owned()
    }

    constructor (cap: nat)
      ensures Valid() && State() == Fresh(cap)
    {
      capacity := if cap < 1 then 1 else cap;
      used, line, next := 0, [], 0;
      held, granted, left, owner := map[], [], {}, map[];
    }

    /** Entering the line at its end. */
    method Enqueue(amount: nat) returns (me: nat)
      requires Valid()
      modifies this
      ensures Valid() && me == old(next) && owner == old(owner)
      ensures State() == Join(old(State()), me, amount)
    {
      hide Balanced, InOrder, Accounted;
      me := next;
      JoinKeeps(State(), me, amount);
      line := line + [Waiter(me, me, Clamp(amount, 1, capacity))];
      next := next + 1;
    }

    /** One pass of the waiting loop: take if in front and fitting, leave if
        the stream halted, otherwise keep waiting. */
    method Poll(me: nat, at: nat, halted: bool) returns (r: Polled)
      requires Valid() && at < |line| && line[at].ticket == me
      modifies this
      ensures Valid()
      ensures at == 0 && FrontFits(old(State())) ==>
                && r.Granted? && fresh(r.lease) && r.lease.budget == this
                && r.lease.amount == old(line[0].amount)
                && State() == Take(old(State()))
                && owner == old(owner)[me := r.lease]
      ensures !(at == 0 && FrontFits(old(State()))) && halted ==>
                r == LeftLine && State() == LeaveAt(old(State()), at) && owner == old(owner)
      ensures !(at == 0 && FrontFits(old(State()))) && !halted ==>
                r == StillWaiting && State() == old(State()) && owner == old(owner)
    {
      hide Balanced, InOrder, Accounted;
      if at == 0 && used + line[0].amount <= capacity {
        TakeKeeps(State());
        LineHoldsNothing(State());
        var lease := new Lease.Over(this, line[0].amount, me);
        used := used + line[0].amount;
        held := held[me := line[0].amount];
        granted := granted + [me];
        line := line[1..];
        owner := owner[me := lease];
        r := Granted(lease);
      } else if halted {
        LeaveKeeps(State(), at);
        left := left + {me};
        line := Without(line, at);
        r := LeftLine;
      } else {
        r := StillWaiting;
      }
    }

    /** Giving a lease's amount back. */
    method GiveBack(amount: nat, ghost t: nat)
      requires Valid() && t in held && held[t] == amount
      modifies this
      ensures Valid() && owner == old(owner) - {t} && amount <= old(used)
      ensures State() == Release(old(State()), t)
    {
      ReleaseKeeps(State(), t);
      used := used - amount;
      held := held - {t};
      owner := owner - {t};
    }
  }

  /** A move-only acquisition; an empty lease points at no budget. */
  class Lease {
    var budget: Budget?
    var amount: nat
    ghost var ticket: nat

    ghost predicate Valid()
      reads this, if budget == null then {} else {budget} + budget.owner.Values
    {
      budget != null ==>
        budget.Valid() && ticket in budget.owner && budget.owner[ticket] == this
    }

    constructor Empty()
      ensures budget == null && Valid()
    {
      budget, amount, ticket := null, 0, 0;
    }

    constructor Over(b: Budget, a: nat, ghost t: nat)
      ensures budget == b && amount == a && ticket == t
    {
      budget, amount, ticket := b, a, t;
    }

    /** Gives the amount back once; an empty lease gives back nothing. */
    method Reset()
      requires Valid()
      modifies this, budget
      ensures budget == null
      ensures old(budget) != null ==>
                && old(budget).Valid()
                && old(ticket) in old(budget.held)
                && old(budget.held)[old(ticket)] <= old(budget.used)
                && old(budget).State() == Release(old(budget.State()), old(ticket))
                && old(budget).owner == old(budget.owner) - {old(ticket)}
    {
      if budget != null {
        HeldFitsUsed(budget.State(), ticket);
        ghost var b := budget;
        budget.GiveBack(amount, ticket);
        budget := null;
        assert forall t :: t in b.owner ==> b.owner[t] != this;
      }
    }

    /** What `other` held moves here untouched; `other` is left empty. */
    method Steal(other: Lease)
      requires budget == null && other != this && other.Valid()
      modifies this, other, other.budget
      ensures Valid() && other.budget == null && budget == old(other.budget)
      ensures budget != null ==>
                amount == old(other.amount) && ticket == old(other.ticket) &&
                  budget.State() == old(other.budget.State())
    {
      hide Ledgers.Valid;
      ghost var b := other.budget;
      budget, amount, ticket := other.budget, other.amount, other.ticket;
      other.budget := null;
      if budget != null {
        budget.owner := budget.owner[ticket := this];
      }
    }

    /** Move assignment: what this lease held is given back, then `other` moves
        in. Moving a lease onto itself changes nothing. */
    method MoveFrom(other: Lease)
      requires Valid() && other.Valid()
      modifies this, budget, other, other.budget
      ensures Valid()
      ensures other == this ==> budget == old(budget) && amount == old(amount)
      ensures other == this && budget != null ==> budget.State() == old(budget.State()) && ticket == old(ticket)
      ensures other != this ==> other.budget == null && budget == old(other.budget)
      ensures other != this && budget != null ==> amount == old(other.amount)
      ensures other != this && old(budget) != null ==>
                old(ticket) in old(budget.held) && old(budget.held)[old(ticket)] <= old(budget.used) &&
                old(budget).State() == Release(old(budget.State()), old(ticket))
      ensures other != this && old(other.budget) != null && old(budget) != old(other.budget) ==>
                old(other.budget).State() == old(other.budget.State())
    {
      hide Ledgers.Valid;
      if other != this {
        Reset();
        Steal(other);
      }
    }
  }
}
