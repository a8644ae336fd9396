/** The state of one counting budget (src/service/budget.h) as a value.

    `used`, `capacity` and the amounts in `line` are the fields of the source.
    The rest is bookkeeping the source keeps implicitly: who waits, who holds a
    lease, and in which order acquisitions arrived and were granted. */
module Ledgers {

  /** One entry of the waiting line. `ticket` is its arrival number. */
  datatype Waiter<K> = Waiter(ticket: nat, owner: K, amount: nat)

  datatype Ledger<!K(==)> = Ledger(
    capacity: nat,
    used: nat,
    line: seq<Waiter<K>>,
    held: map<K, nat>,
    next: nat,
    granted: seq<nat>,
    left: set<nat>)

  function Fresh<K(==)>(capacity: nat): Ledger<K> {
    Ledger(if capacity < 1 then 1 else capacity, 0, [], map[], 0, [], {})
  }

  function Clamp(amount: nat, low: nat, high: nat): nat {
    if amount < low then low else if high < amount then high else amount
  }

  /** The sum of all live leases. */
  ghost function Sum<K>(held: map<K, nat>): nat {
    if held == map[] then 0
    else
      var k :| k in held;
      held[k] + Sum(held - {k})
  }

  lemma {:induction false} SumWithout<K>(held: map<K, nat>, k: K)
    requires k in held
    ensures Sum(held) == held[k] + Sum(held - {k})
    decreases |held|
  {
    var j :| j in held && Sum(held) == held[j] + Sum(held - {j});
    if j != k {
      SumWithout(held - {j}, k);
      SumWithout(held - {k}, j);
      assert held - {j} - {k} == held - {k} - {j};
    }
  }

  lemma {:induction false} SumWith<K>(held: map<K, nat>, k: K, amount: nat)
    requires k !in held
    ensures Sum(held[k := amount]) == Sum(held) + amount
  {
    SumWithout(held[k := amount], k);
    assert held[k := amount] - {k} == held;
  }

  // ---- the operations a budget performs under its lock -------------------

  ghost predicate InLine<K>(b: Ledger<K>, k: K) {
    exists j :: 0 <= j < |b.line| && b.line[j].owner == k
  }

  function Join<K>(b: Ledger<K>, k: K, amount: nat): Ledger<K> {
    b.(line := b.line + [Waiter(b.next, k, Clamp(amount, 1, b.capacity))], next := b.next + 1)
  }

  predicate FrontFits<K>(b: Ledger<K>) {
    |b.line| > 0 && b.used + b.line[0].amount <= b.capacity
  }

  function Take<K>(b: Ledger<K>): Ledger<K>
    requires FrontFits(b)
  {
    var w := b.line[0];
    b.(used := b.used + w.amount, line := b.line[1..],
       held := b.held[w.owner := w.amount], granted := b.granted + [w.ticket])
  }

  /** `s` without its element at `j`. */
  function Without<T>(s: seq<T>, j: nat): seq<T>
    requires j < |s|
  {
    seq(|s| - 1, i requires 0 <= i < |s| - 1 => if i < j then s[i] else s[i + 1])
  }

  function LeaveAt<K>(b: Ledger<K>, j: nat): Ledger<K>
    requires j < |b.line|
  {
    b.(line := Without(b.line, j), left := b.left + {b.line[j].ticket})
  }

  function Release<K>(b: Ledger<K>, k: K): Ledger<K>
    requires k in b.held && b.held[k] <= b.used
  {
    b.(used := b.used - b.held[k], held := b.held - {k})
  }

  // ---- what every budget keeps ------------------------------------------

  /** The counter is the sum of the live leases and fits the capacity; each
      waiter asks for a grantable amount and holds nothing yet. */
  ghost predicate Balanced<K>(b: Ledger<K>) {
    && 1 <= b.capacity
    && b.used == Sum(b.held) <= b.capacity
    && (forall k :: k in b.held ==> 1 <= b.held[k] <= b.capacity)
    && (forall j :: 0 <= j < |b.line| ==> 1 <= b.line[j].amount <= b.capacity)
    && (forall j :: 0 <= j < |b.line| ==> b.line[j].owner !in b.held)
    && (forall i, j :: 0 <= i < j < |b.line| ==> b.line[i].owner != b.line[j].owner)
  }

  /** Tickets stand in line in arrival order, grants were made in arrival
      order, and nobody in line arrived before somebody already granted. */
  ghost predicate InOrder<K>(b: Ledger<K>) {
    && (forall i, j :: 0 <= i < j < |b.line| ==> b.line[i].ticket < b.line[j].ticket)
    && (forall i, j :: 0 <= i < j < |b.granted| ==> b.granted[i] < b.granted[j])
    && (forall i, j :: 0 <= i < |b.granted| && 0 <= j < |b.line| ==> b.granted[i] < b.line[j].ticket)
    && (forall j :: 0 <= j < |b.line| ==> b.line[j].ticket < b.next && b.line[j].ticket !in b.left)
    && (forall i :: 0 <= i < |b.granted| ==> b.granted[i] < b.next && b.granted[i] !in b.left)
    && (forall t :: t in b.left ==> t < b.next)
  }

  /** Every ticket handed out is granted, gone or still in line. */
  ghost predicate Accounted<K>(b: Ledger<K>) {
    forall t: nat {:trigger HasTicket(b, t)} ::
      t < b.next ==> t in b.granted || t in b.left || HasTicket(b, t)
  }

  ghost predicate HasTicket<K>(b: Ledger<K>, t: nat) {
    exists j :: 0 <= j < |b.line| && b.line[j].ticket == t
  }

  ghost predicate Valid<K>(b: Ledger<K>) {
    Balanced(b) && InOrder(b) && Accounted(b)
  }

  lemma {:induction false} FreshValid<K>(capacity: nat)
    ensures Valid(Fresh<K>(capacity))
  {
  }

  lemma {:induction false} JoinKeeps<K>(b: Ledger<K>, k: K, amount: nat)
    requires Valid(b) && k !in b.held && !InLine(b, k)
    ensures Valid(Join(b, k, amount))
    ensures forall o :: InLine(Join(b, k, amount), o) <==> InLine(b, o) || o == k
  {
    var c := Join(b, k, amount);
    assert c.line[|b.line|] == Waiter(b.next, k, Clamp(amount, 1, b.capacity));
    assert forall j :: 0 <= j < |b.line| ==> c.line[j] == b.line[j];
    forall t: nat | t < c.next ensures t in c.granted || t in c.left || HasTicket(c, t) {
      assert t < b.next ==> t in b.granted || t in b.left || HasTicket(b, t);
      if t == b.next {
        assert c.line[|b.line|].ticket == t;
      } else if HasTicket(b, t) {
        var j :| 0 <= j < |b.line| && b.line[j].ticket == t;
        assert c.line[j].ticket == t;
      }
    }
    forall o ensures InLine(c, o) <==> InLine(b, o) || o == k {
      if InLine(b, o) {
        var j :| 0 <= j < |b.line| && b.line[j].owner == o;
        assert c.line[j].owner == o;
      }
    }
  }

  lemma {:induction false} TakeBalanced<K>(b: Ledger<K>)
    requires Balanced(b) && FrontFits(b)
    ensures Balanced(Take(b))
  {
    SumWith(b.held, b.line[0].owner, b.line[0].amount);
  }

  lemma {:induction false} TakeInOrder<K>(b: Ledger<K>)
    requires InOrder(b) && FrontFits(b)
    ensures InOrder(Take(b))
  {
  }

  lemma {:induction false} TakeAccounted<K>(b: Ledger<K>)
    requires Accounted(b) && FrontFits(b)
    ensures Accounted(Take(b))
  {
    var c, w := Take(b), b.line[0];
    forall t: nat | t < c.next ensures t in c.granted || t in c.left || HasTicket(c, t) {
      assert t in b.granted || t in b.left || HasTicket(b, t);
      if t in b.granted {
        assert t in c.granted;
      } else if t == w.ticket {
        assert c.granted[|b.granted|] == t;
      } else if HasTicket(b, t) {
        var j :| 0 <= j < |b.line| && b.line[j].ticket == t;
        assert c.line[j - 1].ticket == t;
      }
    }
  }

  lemma {:induction false} TakeKeeps<K>(b: Ledger<K>)
    requires Valid(b) && FrontFits(b)
    ensures Valid(Take(b))
    ensures forall o :: InLine(Take(b), o) <==> InLine(b, o) && o != b.line[0].owner
  {
    TakeBalanced(b);
    TakeInOrder(b);
    TakeAccounted(b);
    var c, w := Take(b), b.line[0];
    forall o ensures InLine(c, o) <==> InLine(b, o) && o != w.owner {
      if InLine(b, o) && o != w.owner {
        var j :| 0 <= j < |b.line| && b.line[j].owner == o;
        assert c.line[j - 1].owner == o;
      }
      if InLine(c, o) {
        var j :| 0 <= j < |c.line| && c.line[j].owner == o;
        assert b.line[j + 1].owner == o;
      }
    }
  }

  lemma {:induction false} LeaveInOrder<K>(b: Ledger<K>, j: nat)
    requires InOrder(b) && j < |b.line|
    ensures InOrder(LeaveAt(b, j))
  {
  }

  lemma {:induction false} LeaveAccounted<K>(b: Ledger<K>, j: nat)
    requires Accounted(b) && j < |b.line|
    ensures Accounted(LeaveAt(b, j))
  {
    var c := LeaveAt(b, j);
    forall t: nat | t < c.next ensures t in c.granted || t in c.left || HasTicket(c, t) {
      assert t in b.granted || t in b.left || HasTicket(b, t);
      if HasTicket(b, t) && t != b.line[j].ticket {
        var i :| 0 <= i < |b.line| && b.line[i].ticket == t;
        assert c.line[if i < j then i else i - 1].ticket == t;
      }
    }
  }

  lemma {:induction false} LeaveBalanced<K>(b: Ledger<K>, j: nat)
    requires Balanced(b) && j < |b.line|
    ensures Balanced(LeaveAt(b, j))
  {
  }

  lemma {:induction false} LeaveKeeps<K>(b: Ledger<K>, j: nat)
    requires Valid(b) && j < |b.line|
    ensures Valid(LeaveAt(b, j))
    ensures forall o :: InLine(LeaveAt(b, j), o) <==> InLine(b, o) && o != b.line[j].owner
  {
    LeaveInOrder(b, j);
    LeaveAccounted(b, j);
    LeaveBalanced(b, j);
    var c := LeaveAt(b, j);
    forall o ensures InLine(c, o) <==> InLine(b, o) && o != b.line[j].owner {
      if InLine(b, o) && o != b.line[j].owner {
        var i :| 0 <= i < |b.line| && b.line[i].owner == o;
        assert c.line[if i < j then i else i - 1].owner == o;
      }
      if InLine(c, o) {
        var i :| 0 <= i < |c.line| && c.line[i].owner == o;
        assert b.line[if i < j then i else i + 1].owner == o;
      }
    }
  }

  lemma {:induction false} LineHoldsNothing<K>(b: Ledger<K>)
    requires Valid(b)
    ensures forall j :: 0 <= j < |b.line| ==> b.line[j].owner !in b.held
    ensures forall i, j :: 0 <= i < j < |b.line| ==> b.line[i].owner != b.line[j].owner
  {
  }

  lemma {:induction false} HeldFitsUsed<K>(b: Ledger<K>, k: K)
    requires Balanced(b) && k in b.held
    ensures b.held[k] <= b.used
  {
    SumWithout(b.held, k);
  }

  lemma {:induction false} ReleaseKeeps<K>(b: Ledger<K>, k: K)
    requires Valid(b) && k in b.held
    ensures b.held[k] <= b.used && Valid(Release(b, k))
    ensures forall o :: InLine(Release(b, k), o) <==> InLine(b, o)
  {
    SumWithout(b.held, k);
    forall t: nat ensures HasTicket(b, t) ==> HasTicket(Release(b, k), t) {
    }
  }

  // ---- over whole runs ---------------------------------------------------

  datatype Op<K> = OpJoin(owner: K, amount: nat) | OpTake | OpLeave(at: nat) | OpRelease(owner: K)

  ghost predicate Allowed<K>(b: Ledger<K>, op: Op<K>) {
    match op
    case OpJoin(k, _) => k !in b.held && !InLine(b, k)
    case OpTake => FrontFits(b)
    case OpLeave(j) => j < |b.line|
    case OpRelease(k) => k in b.held && b.held[k] <= b.used
  }

  ghost function Do<K>(b: Ledger<K>, op: Op<K>): Ledger<K>
    requires Allowed(b, op)
  {
    match op
    case OpJoin(k, amount) => Join(b, k, amount)
    case OpTake => Take(b)
    case OpLeave(j) => LeaveAt(b, j)
    case OpRelease(k) => Release(b, k)
  }

  ghost predicate IsHistory<K>(states: seq<Ledger<K>>, ops: seq<Op<K>>) {
    && |states| == |ops| + 1
    && (exists capacity: nat :: states[0] == Fresh(capacity))
    && forall i :: 0 <= i < |ops| ==> Allowed(states[i], ops[i]) && states[i + 1] == Do(states[i], ops[i])
  }

  lemma {:induction false} DoKeeps<K>(b: Ledger<K>, op: Op<K>)
    requires Valid(b) && Allowed(b, op)
    ensures Valid(Do(b, op))
  {
    match op
    case OpJoin(k, amount) => JoinKeeps(b, k, amount);
    case OpTake => TakeKeeps(b);
    case OpLeave(j) => LeaveKeeps(b, j);
    case OpRelease(k) => ReleaseKeeps(b, k);
  }

  /** A later arrival is granted only after every earlier one was granted or
      left the line. */
  lemma {:induction false} NoOvertaking<K>(b: Ledger<K>, early: nat, late: nat)
    requires Valid(b) && early < late && late in b.granted
    ensures early in b.granted || early in b.left
  {
    var i :| 0 <= i < |b.granted| && b.granted[i] == late;
    assert !HasTicket(b, early);
  }

  /** Safety and order over every history of a budget: the counter never
      exceeds the capacity and always equals the live leases, and grants never
      overtake. */
  lemma {:induction false} EveryHistoryIsSafeAndFair<K>(states: seq<Ledger<K>>, ops: seq<Op<K>>, n: nat)
    requires IsHistory(states, ops) && n < |states|
    ensures Valid(states[n])
    ensures forall early: nat, late: nat :: early < late && late in states[n].granted ==>
              early in states[n].granted || early in states[n].left
    decreases n
  {
    if n == 0 {
      var capacity: nat :| states[0] == Fresh(capacity);
      FreshValid<K>(capacity);
    } else {
      EveryHistoryIsSafeAndFair(states, ops, n - 1);
      assert states[n - 1 + 1] == Do(states[n - 1], ops[n - 1]);
      DoKeeps(states[n - 1], ops[n - 1]);
    }
    forall early: nat, late: nat | early < late && late in states[n].granted
      ensures early in states[n].granted || early in states[n].left
    {
      NoOvertaking(states[n], early, late);
    }
  }

  lemma {:induction false} NothingHeld<K>(b: Ledger<K>)
    requires Valid(b) && b.held == map[]
    ensures b.used == 0
  {
    hide InOrder, Accounted;
  }

  /** When the front waiter does not fit, somebody holds a lease. */
  lemma {:induction false} BlockedFrontHasHolder<K>(b: Ledger<K>) returns (k: K)
    requires Balanced(b) && |b.line| > 0 && !FrontFits(b)
    ensures k in b.held
  {
    assert b.held != map[];
    k :| k in b.held;
  }
}
