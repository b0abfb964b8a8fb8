/** Routing and the in-flight budget (`src/util/rule_table.h`). */
module RuleTable {
  import opened MathUtils

  /** The routes of a workload type; a type never added has none. */
  function RoutesOf(table: map<nat, seq<nat>>, workload: nat): seq<nat> {
    if workload in table then table[workload] else []
  }

  function BudgetOf(budgets: map<nat, nat>, workload: nat): nat {
    if workload in budgets then budgets[workload] else 0
  }

  /** The workspace that a selection counter picks. */
  function RoundRobin(ids: seq<nat>, selectIdx: nat): nat
    requires ids != []
  {
    ids[selectIdx % |ids|]
  }

  class RuleTable {
    var table: map<nat, seq<nat>>
    var inflyBudget: map<nat, nat>
    var selectIdx: nat
    const initialBudget: nat // kInflyMessageBudget

    constructor (initialBudget: nat)
      ensures table == map[] && inflyBudget == map[] && selectIdx == 0 && this.initialBudget == initialBudget
    {
      this.initialBudget := initialBudget;
      table, inflyBudget, selectIdx := map[], map[], 0;
    }

    /** A further route does not refill the budget of its type. */
    method AddRoute(workload: nat, wsId: nat)
      modifies this
      ensures table == old(table)[workload := (if workload in old(table) then old(table)[workload] else []) + [wsId]]
      ensures selectIdx == old(selectIdx)
      ensures inflyBudget == old(inflyBudget)[workload := if workload in old(inflyBudget)
                                                          then old(inflyBudget)[workload] else initialBudget]
    {
      table := table[workload := RoutesOf(table, workload) + [wsId]];
      if workload !in inflyBudget {
        inflyBudget := inflyBudget[workload := initialBudget];
      } else {
        assert inflyBudget == inflyBudget[workload := inflyBudget[workload]];
      }
    }

    /** The whole batch is granted or nothing is taken. */
    method ApplyInflyBudget(workload: nat, size: nat) returns (granted: bool)
      modifies this`inflyBudget
      ensures var budget := if workload in old(inflyBudget) then old(inflyBudget)[workload] else 0;
              && (granted <==> budget >= size)
              && inflyBudget == old(inflyBudget)[workload := budget - if granted then size else 0]
    {
      var budget := BudgetOf(inflyBudget, workload);
      granted := budget >= size;
      inflyBudget := inflyBudget[workload := budget]; // operator[] creates the entry it looks up
      if granted {
        inflyBudget := inflyBudget[workload := budget - size];
      }
    }

    method ReturnInflyBudget(workload: nat, size: nat)
      modifies this`inflyBudget
      ensures inflyBudget == old(inflyBudget)[workload := (if workload in old(inflyBudget) then old(inflyBudget)[workload]
                                                           else 0) + size]
    {
      inflyBudget := inflyBudget[workload := BudgetOf(inflyBudget, workload) + size];
    }

    method RrSelect(workload: nat) returns (wsId: nat)
      requires workload in table && table[workload] != []
      modifies this`selectIdx
      ensures wsId == table[workload][old(selectIdx) % |table[workload]|] && selectIdx == old(selectIdx) + 1
    {
      var ids := table[workload];
      wsId := ids[selectIdx % |ids|];
      selectIdx := selectIdx + 1;
    }
  }

  /** n consecutive picks. */
  function Picks(ids: seq<nat>, selectIdx: nat, n: nat): (p: seq<nat>)
    requires ids != []
    ensures |p| == n && forall i :: 0 <= i < n ==> p[i] == RoundRobin(ids, selectIdx + i)
  {
    if n == 0 then [] else Picks(ids, selectIdx, n - 1) + [RoundRobin(ids, selectIdx + n - 1)]
  }

  /** Whatever the counter, as many picks as there are routes use every route exactly once. */
  lemma RoundRobinIsFair(ids: seq<nat>, selectIdx: nat)
    requires ids != []
    ensures multiset(Picks(ids, selectIdx, |ids|)) == multiset(ids)
  {
    var n := |ids|;
    var r := selectIdx % n;
    var p := Picks(ids, selectIdx, n);
    forall i | 0 <= i < n ensures p[i] == (ids[r..] + ids[..r])[i] {
      var q := selectIdx / n;
      assert selectIdx + i == q * n + (r + i);
      if r + i < n { RemainderUnique(selectIdx + i, n, q, r + i); } else {
        assert q * n + (r + i) == (q + 1) * n + (r + i - n);
        RemainderUnique(selectIdx + i, n, q + 1, r + i - n);
      }
    }
    assert p == ids[r..] + ids[..r];
    assert ids == ids[..r] + ids[r..];
  }
}
