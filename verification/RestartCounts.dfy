/** What restarts do to the fail counts of jobs (pkg/fsm/fsm_store.go, pkg/service/executor/executor.go). */
module RestartCounts {
  import opened Snapshot
  import opened Recovery
  import opened RecoveryRuns
  import opened ExecutionLog
  import X = Executor
  import L = Lifecycle

  lemma {:induction false} DoubledHistory(rows: seq<Row>, n: nat, j: nat)
    ensures History(Doubled(rows, n), j) == Doubled(History(rows, j), n)
    decreases n
  {
    if n > 0 {
      DoubledHistory(rows + rows, n - 1, j);
      HistoryConcat(rows, rows, j);
    }
  }

  lemma {:induction false} DoubledOwned(rows: seq<Row>, n: nat, node: nat)
    requires OwnedBy(rows, node)
    ensures OwnedBy(Doubled(rows, n), node)
    decreases n
  {
    if n > 0 {
      DoubledOwned(rows + rows, n - 1, node);
    }
  }

  /** How often the tables hold each row after `n` restarts; a single node has the replicated copy besides. */
  function CopiesAfter(env: X.Env, n: nat): nat {
    Power2(n) + if env.singleNode then 1 else 0
  }

  lemma {:induction false} Power2Of(n: nat)
    ensures Power2(n) >= 1 && (Power2(n) == 1 <==> n == 0)
  {
    if n > 0 {
      Power2Of(n - 1);
    }
  }

  lemma CopiesHeld(env: X.Env, st: X.State, n: nat, j: nat)
    requires L.Mirrored(env, st)
    ensures L.HoldsCopies(st.committed + Doubled(st.uncommitted, n), j, multiset(History(st.uncommitted, j)),
                          CopiesAfter(env, n))
  {
    HistoryConcat(st.committed, Doubled(st.uncommitted, n), j);
    DoubledHistory(st.uncommitted, n, j);
    CopiesOfAll(History(st.committed, j), History(st.uncommitted, j), n, if env.singleNode then 1 else 0);
  }

  lemma CopiesOfAll(replicated: seq<Key>, own: seq<Key>, n: nat, more: nat)
    requires forall k :: multiset(replicated)[k] == more * multiset(own)[k]
    ensures forall k :: multiset(replicated + Doubled(own, n))[k] == (Power2(n) + more) * multiset(own)[k]
  {
    forall k {
      CopiesOf(replicated, own, n, more, k);
    }
  }

  lemma CopiesOf(replicated: seq<Key>, own: seq<Key>, n: nat, more: nat, k: Key)
    requires multiset(replicated)[k] == more * multiset(own)[k]
    ensures multiset(replicated + Doubled(own, n))[k] == (Power2(n) + more) * multiset(own)[k]
  {
    DoubledCount(own, n, k);
    Distribute(Power2(n), more, multiset(own)[k]);
  }

  lemma Distribute(a: nat, b: nat, x: nat)
    ensures (a + b) * x == a * x + b * x
  {
  }

  /**
   * A node's snapshot holds the rows it has logged, the log is empty, and the node restarts and
   * recovers `n` times. What a dropped cache entry is then rebuilt to has the right version, but a
   * fail count of 2^n times the failures, and once more on a single node: it is right exactly for a
   * job that has not failed, or in a cluster before the first restart.
   */
  lemma RestartsMultiplyFailCounts<T, C>(sys: System<T, C>, d: Disk<T, C>, spare: seq<Byte>, n: nat, env: X.Env,
                                         st: X.State, prog: map<nat, L.Progress>, answer: map<nat, Row>, j: nat)
    requires ValidSystem(sys) && Inv(sys, d) && d.snaps != [] && d.log.entries == [] && CanCycle(sys, d, spare, n)
    requires L.Inv(env, st, prog) && j in prog && st.uncommitted == Rows(Restarted(sys, d).main.local)
    requires var rows := st.committed + Rows(Restarted(sys, Cycles(sys, d, spare, n)).main.local);
             j in answer && IsLast(rows, j, answer[j])
    ensures var rows := st.committed + Rows(Restarted(sys, Cycles(sys, d, spare, n)).main.local);
            var mem := X.Rebuilt(env, rows, answer, j);
            && mem.version == prog[j].version
            && mem.failCount == CopiesAfter(env, n) * prog[j].fails
            && (L.Agrees(mem, prog[j]) <==> prog[j].fails == 0 || (n == 0 && !env.singleNode))
  {
    CyclesMultiply(sys, d, spare, n);
    Power2Of(n);
    RebuiltAfterDoubling(env, st, prog, n, answer, j);
  }

  lemma RebuiltAfterDoubling(env: X.Env, st: X.State, prog: map<nat, L.Progress>, n: nat, answer: map<nat, Row>, j: nat)
    requires L.Inv(env, st, prog) && j in prog
    requires j in answer && IsLast(st.committed + Doubled(st.uncommitted, n), j, answer[j])
    ensures var mem := X.Rebuilt(env, st.committed + Doubled(st.uncommitted, n), answer, j);
            && mem.version == prog[j].version && mem.failCount == CopiesAfter(env, n) * prog[j].fails
            && (L.Agrees(mem, prog[j]) <==> prog[j].fails == 0 || CopiesAfter(env, n) == 1)
  {
    var rows := st.committed + Doubled(st.uncommitted, n);
    assert OwnedBy(X.LogRows(st), env.node);
    DoubledOwned(st.uncommitted, n, env.node);
    CopiesHeld(env, st, n, j);
    Power2Of(n);
    L.RebuiltFromCopies(env, rows, multiset(History(st.uncommitted, j)), CopiesAfter(env, n), prog[j], answer, j);
  }
}
