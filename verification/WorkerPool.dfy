/** The dispatcher and its workers, as steps of one shared state (pkg/utils/dispatcher.go, worker.go). */
module WorkerPool {
  import opened Collections

  /** Work items carry the number of their submission; workers are numbered from zero. */
  type Item = nat
  type Worker = nat

  datatype Config = Config(maxWorkers: nat, maxQueue: nat)

  /**
   * `queue` is the input channel, `waiting` the hand-off goroutines without a worker channel yet,
   * `claimed` those that hold one, `pool` the channel of worker channels. A worker is registering,
   * idle (its channel handed over, waiting for work) or running.
   */
  datatype State = State(next: nat, queue: seq<Item>, waiting: set<Item>, claimed: map<Item, Worker>,
                         pool: seq<Worker>, registering: set<Worker>, idle: set<Worker>,
                         running: map<Worker, Item>, done: set<Item>)

  datatype Event =
    | Submit | Hand
    | Take | Claim(item: Item) | Deliver(item: Item) | Finish(worker: Worker) | Register(worker: Worker)

  function Start(cfg: Config): State {
    State(0, [], {}, map[], [], Below(cfg.maxWorkers), {}, map[], {})
  }

  /** A send needs room or a receiver, a receive needs an element; `Hand` is a send that meets the dispatcher. */
  predicate Enabled(cfg: Config, st: State, e: Event) {
    match e
    case Submit => |st.queue| < cfg.maxQueue
    case Hand => st.queue == []
    case Take => st.queue != []
    case Claim(i) => i in st.waiting && st.pool != []
    case Deliver(i) => i in st.claimed && st.claimed[i] in st.idle
    case Finish(w) => w in st.running
    case Register(w) => w in st.registering && |st.pool| < cfg.maxWorkers
  }

  function Step(cfg: Config, st: State, e: Event): State
    requires Enabled(cfg, st, e)
  {
    match e
    case Submit => st.(next := st.next + 1, queue := st.queue + [st.next])
    case Hand => st.(next := st.next + 1, waiting := st.waiting + {st.next})
    case Take => st.(queue := st.queue[1..], waiting := st.waiting + {st.queue[0]})
    case Claim(i) => st.(waiting := st.waiting - {i}, claimed := st.claimed[i := st.pool[0]], pool := st.pool[1..])
    case Deliver(i) =>
      var w := st.claimed[i];
      st.(claimed := st.claimed - {i}, idle := st.idle - {w}, running := st.running[w := i])
    case Finish(w) =>
      st.(running := st.running - {w}, registering := st.registering + {w}, done := st.done + {st.running[w]})
    case Register(w) => st.(registering := st.registering - {w}, idle := st.idle + {w}, pool := st.pool + [w])
  }

  // ---- invariants ----

  predicate Injective(m: map<nat, nat>) {
    forall a, b :: a in m && b in m && m[a] == m[b] ==> a == b
  }

  function Elements(s: seq<nat>): set<nat> {
    set x | x in s
  }

  predicate Under(x: nat, n: nat) { x < n }

  function Below(n: nat): set<nat> {
    set x: nat | x < n && Under(x, n)
  }

  /** Every item submitted so far is in exactly one place. */
  ghost predicate ItemsOk(st: State) {
    && NoRepeats(st.queue) && Injective(st.running)
    && Elements(st.queue) !! st.waiting !! st.claimed.Keys !! st.running.Values !! st.done
    && Elements(st.queue) + st.waiting + st.claimed.Keys + st.running.Values + st.done == Below(st.next)
  }

  ghost predicate WorkersOk(cfg: Config, st: State) {
    && st.registering !! st.idle !! st.running.Keys
    && st.registering + st.idle + st.running.Keys == Below(cfg.maxWorkers)
  }

  /** The channel of an idle worker is in the pool or claimed by one goroutine; of others it is nowhere. */
  ghost predicate ChannelsOk(st: State) {
    && NoRepeats(st.pool) && Injective(st.claimed)
    && Elements(st.pool) !! st.claimed.Values
    && Elements(st.pool) + st.claimed.Values == st.idle
  }

  ghost predicate Inv(cfg: Config, st: State) {
    ItemsOk(st) && WorkersOk(cfg, st) && ChannelsOk(st) && |st.queue| <= cfg.maxQueue
  }

  lemma ItemsKept(cfg: Config, st: State, e: Event)
    requires Inv(cfg, st) && Enabled(cfg, st, e)
    ensures ItemsOk(Step(cfg, st, e))
  {
    match e
    case Submit => SubmitItems(cfg, st);
    case Hand => HandItems(cfg, st);
    case Take => TakeItems(cfg, st);
    case Claim(i) => assert st.claimed[i := st.pool[0]].Keys == st.claimed.Keys + {i};
    case Deliver(i) => DeliverItems(cfg, st, i);
    case Finish(w) => PairRemoved(st.running, w);
    case Register(_) =>
  }

  lemma SubmitItems(cfg: Config, st: State)
    requires ItemsOk(st) && Enabled(cfg, st, Submit)
    ensures ItemsOk(Step(cfg, st, Submit))
  {
    assert Elements(st.queue + [st.next]) == Elements(st.queue) + {st.next};
    NextBelow(st.next);
  }

  lemma HandItems(cfg: Config, st: State)
    requires ItemsOk(st) && Enabled(cfg, st, Hand)
    ensures ItemsOk(Step(cfg, st, Hand))
  {
    NextBelow(st.next);
  }

  lemma TakeItems(cfg: Config, st: State)
    requires ItemsOk(st) && Enabled(cfg, st, Take)
    ensures ItemsOk(Step(cfg, st, Take))
  {
    TailElements(st.queue);
  }

  lemma DeliverItems(cfg: Config, st: State, i: Item)
    requires ItemsOk(st) && Enabled(cfg, st, Deliver(i)) && st.claimed[i] !in st.running
    ensures ItemsOk(Step(cfg, st, Deliver(i)))
  {
    PairAdded(st.running, st.claimed[i], i);
  }

  lemma NextBelow(n: nat)
    ensures Below(n + 1) == Below(n) + {n} && n !in Below(n)
  {
    assert Under(n, n + 1) && forall x: nat | x != n :: Under(x, n + 1) <==> Under(x, n);
  }

  lemma ChannelsKept(cfg: Config, st: State, e: Event)
    requires Inv(cfg, st) && Enabled(cfg, st, e)
    ensures ChannelsOk(Step(cfg, st, e))
  {
    var st' := Step(cfg, st, e);
    match e
    case Submit =>
    case Hand =>
    case Take =>
    case Claim(i) =>
      TailElements(st.pool);
      PairAdded(st.claimed, i, st.pool[0]);
    case Deliver(i) => PairRemoved(st.claimed, i);
    case Finish(w) =>
    case Register(w) => assert Elements(st'.pool) == Elements(st.pool) + {w};
  }

  lemma WorkersKept(cfg: Config, st: State, e: Event)
    requires Inv(cfg, st) && Enabled(cfg, st, e)
    ensures WorkersOk(cfg, Step(cfg, st, e))
  {
    var st' := Step(cfg, st, e);
    if e.Deliver? {
      assert st'.running.Keys == st.running.Keys + {st.claimed[e.item]};
    }
  }

  lemma TailElements(s: seq<nat>)
    requires NoRepeats(s) && s != []
    ensures Elements(s[1..]) == Elements(s) - {s[0]} && NoRepeats(s[1..])
  {
    assert s == [s[0]] + s[1..];
  }

  lemma PairAdded(m: map<nat, nat>, k: nat, v: nat)
    requires Injective(m) && k !in m && v !in m.Values
    ensures Injective(m[k := v]) && m[k := v].Values == m.Values + {v} && m[k := v].Keys == m.Keys + {k}
  {
    var m' := m[k := v];
    forall x | x in m.Values + {v} ensures x in m'.Values {
      if x == v { assert m'[k] == v; } else {
        var a :| a in m && m[a] == x;
        assert m'[a] == x;
      }
    }
  }

  lemma PairRemoved(m: map<nat, nat>, k: nat)
    requires Injective(m) && k in m
    ensures Injective(m - {k}) && (m - {k}).Values == m.Values - {m[k]} && (m - {k}).Keys == m.Keys - {k}
  {
    var m' := m - {k};
    forall x | x in m.Values - {m[k]} ensures x in m'.Values {
      var a :| a in m && m[a] == x;
      assert m'[a] == x;
    }
  }

  lemma StepKeeps(cfg: Config, st: State, e: Event)
    requires Inv(cfg, st) && Enabled(cfg, st, e)
    ensures Inv(cfg, Step(cfg, st, e))
  {
    ItemsKept(cfg, st, e);
    WorkersKept(cfg, st, e);
    ChannelsKept(cfg, st, e);
  }

  ghost predicate IsRun(cfg: Config, states: seq<State>, events: seq<Event>) {
    && |states| == |events| + 1
    && forall i: nat {:trigger At(i)} :: At(i) && i < |events| ==>
         Enabled(cfg, states[i], events[i]) && states[i + 1] == Step(cfg, states[i], events[i])
  }

  lemma {:induction false} KeptFrom(cfg: Config, states: seq<State>, events: seq<Event>, i: nat)
    requires IsRun(cfg, states, events) && Inv(cfg, states[0]) && i < |states|
    ensures Inv(cfg, states[i])
    decreases i
  {
    if i > 0 {
      KeptFrom(cfg, states, events, i - 1);
      assert At(i - 1);
      StepKeeps(cfg, states[i - 1], events[i - 1]);
    }
  }

  lemma StartOk(cfg: Config)
    ensures Inv(cfg, Start(cfg))
  {
  }

  /** Every interleaving of dispatcher, hand-offs and workers keeps items, workers and channels accounted for. */
  lemma EveryRunKeeps(cfg: Config, states: seq<State>, events: seq<Event>, i: nat)
    requires IsRun(cfg, states, events) && states[0] == Start(cfg) && i < |states|
    ensures Inv(cfg, states[i])
  {
    StartOk(cfg);
    KeptFrom(cfg, states, events, i);
  }

  /** The queue holds items in the order of their submission. */
  ghost predicate InOrder(st: State) {
    && (forall i, k :: 0 <= i < k < |st.queue| ==> st.queue[i] < st.queue[k])
    && (forall i :: 0 <= i < |st.queue| ==> st.queue[i] < st.next)
  }

  lemma OrderKept(cfg: Config, st: State, e: Event)
    requires InOrder(st) && Enabled(cfg, st, e)
    ensures InOrder(Step(cfg, st, e))
  {
    var queue := Step(cfg, st, e).queue;
    if e.Take? {
      assert forall i :: 0 <= i < |queue| ==> queue[i] == st.queue[i + 1];
    } else if e.Submit? {
      assert forall i :: 0 <= i < |st.queue| ==> queue[i] == st.queue[i];
    }
  }

  lemma {:induction false} EveryRunInOrder(cfg: Config, states: seq<State>, events: seq<Event>, i: nat)
    requires IsRun(cfg, states, events) && states[0] == Start(cfg) && i < |states|
    ensures InOrder(states[i])
    decreases i
  {
    if i > 0 {
      EveryRunInOrder(cfg, states, events, i - 1);
      assert At(i - 1);
      OrderKept(cfg, states[i - 1], events[i - 1]);
    }
  }

  /** The dispatcher takes the item that was submitted first of those queued, and leaves the others. */
  lemma OldestIsTaken(cfg: Config, states: seq<State>, events: seq<Event>, i: nat)
    requires IsRun(cfg, states, events) && states[0] == Start(cfg) && i < |events| && events[i] == Take
    ensures exists x <- states[i].queue ::
              && (forall y <- states[i].queue :: x <= y)
              && states[i + 1].waiting == states[i].waiting + {x}
              && Elements(states[i + 1].queue) == Elements(states[i].queue) - {x}
  {
    EveryRunInOrder(cfg, states, events, i);
    EveryRunKeeps(cfg, states, events, i);
    assert At(i);
    var x := states[i].queue[0];
    TailElements(states[i].queue);
    assert x in states[i].queue;
  }

  // ---- bounds ----

  lemma {:induction false} SizeOfBelow(n: nat)
    ensures |Below(n)| == n
  {
    if n > 0 {
      SizeOfBelow(n - 1);
      NextBelow(n - 1);
    }
  }

  /**
   * At most `maxWorkers` items run at once, the pool never exceeds its capacity, registering never
   * blocks, and whoever claimed a channel finds its worker listening.
   */
  lemma NothingBlocks(cfg: Config, st: State)
    requires Inv(cfg, st)
    ensures |st.running| + |st.pool| + |st.registering| <= cfg.maxWorkers
    ensures forall w <- st.registering :: Enabled(cfg, st, Register(w))
    ensures forall i <- st.claimed :: Enabled(cfg, st, Deliver(i))
  {
    CountWorkers(cfg, st);
    RegisterHasRoom(cfg, st);
    ClaimedIsIdle(st);
  }

  lemma RegisterHasRoom(cfg: Config, st: State)
    requires |st.running| + |st.pool| + |st.registering| <= cfg.maxWorkers
    ensures forall w <- st.registering :: Enabled(cfg, st, Register(w))
  {
    forall w | w in st.registering ensures |st.pool| < cfg.maxWorkers {
      SubsetCount({w}, st.registering);
    }
  }

  lemma CountWorkers(cfg: Config, st: State)
    requires WorkersOk(cfg, st) && ChannelsOk(st)
    ensures |st.running| + |st.pool| + |st.registering| <= cfg.maxWorkers
  {
    SizeOfNoRepeats(st.pool);
    SizeOfBelow(cfg.maxWorkers);
    DisjointSizes(st.registering, st.idle, st.running.Keys);
    assert |st.running.Keys| == |st.running|;
    SubsetCount(Elements(st.pool), st.idle);
  }

  lemma DisjointSizes(a: set<nat>, b: set<nat>, c: set<nat>)
    requires a !! b !! c
    ensures |a + b + c| == |a| + |b| + |c|
  {
  }

  lemma ClaimedIsIdle(st: State)
    requires ChannelsOk(st)
    ensures forall i <- st.claimed :: st.claimed[i] in st.idle
  {
    forall i | i in st.claimed ensures st.claimed[i] in st.idle {
      assert st.claimed[i] in st.claimed.Values;
    }
  }

  // ---- progress ----

  predicate Internal(e: Event) {
    !e.Submit? && !e.Hand?
  }

  /** Work left before everything is done and every worker registered. */
  function Effort(st: State): nat {
    6 * |st.queue| + 5 * |st.waiting| + 4 * |st.claimed| + 3 * |st.running| + |st.registering|
  }

  /** Where the subject of a step arrives, it was not before. */
  predicate Arrives(st: State, e: Event) {
    match e
    case Take => st.queue != [] && st.queue[0] !in st.waiting
    case Claim(i) => i in st.waiting && i !in st.claimed
    case Deliver(i) => i in st.claimed && st.claimed[i] !in st.running
    case Finish(w) => w in st.running && w !in st.registering
    case Register(w) => w in st.registering
    case _ => false
  }

  lemma InternalArrives(cfg: Config, st: State, e: Event)
    requires Inv(cfg, st) && Enabled(cfg, st, e) && Internal(e)
    ensures Arrives(st, e)
  {
    if e.Take? { assert st.queue[0] in Elements(st.queue); }
  }

  lemma ArrivalShrinks(cfg: Config, st: State, e: Event)
    requires Enabled(cfg, st, e) && Arrives(st, e)
    ensures Effort(Step(cfg, st, e)) < Effort(st)
  {
    match e
    case Take =>
    case Claim(i) => MapGrows(st.claimed, i, st.pool[0]);
    case Deliver(i) =>
      MapShrinks(st.claimed, i);
      MapGrows(st.running, st.claimed[i], i);
    case Finish(w) => MapShrinks(st.running, w);
    case Register(_) =>
  }

  lemma EffortShrinks(cfg: Config, st: State, e: Event)
    requires Inv(cfg, st) && Enabled(cfg, st, e) && Internal(e)
    ensures Effort(Step(cfg, st, e)) < Effort(st)
  {
    InternalArrives(cfg, st, e);
    ArrivalShrinks(cfg, st, e);
  }

  lemma MapGrows(m: map<nat, nat>, k: nat, v: nat)
    requires k !in m
    ensures |m[k := v]| == |m| + 1
  {
    assert m[k := v].Keys == m.Keys + {k};
    assert |m[k := v]| == |m[k := v].Keys| && |m| == |m.Keys|;
  }

  lemma MapShrinks(m: map<nat, nat>, k: nat)
    requires k in m
    ensures |m - {k}| == |m| - 1
  {
    assert (m - {k}).Keys == m.Keys - {k};
    assert |m - {k}| == |(m - {k}).Keys| && |m| == |m.Keys|;
  }

  lemma EffortInRun(cfg: Config, states: seq<State>, events: seq<Event>, k: nat)
    requires IsRun(cfg, states, events) && Inv(cfg, states[0]) && k < |events| && Internal(events[k])
    ensures Effort(states[k + 1]) < Effort(states[k])
  {
    KeptFrom(cfg, states, events, k);
    assert At(k);
    EffortShrinks(cfg, states[k], events[k]);
  }

  function Efforts(states: seq<State>): seq<nat> {
    seq(|states|, k requires 0 <= k < |states| => Effort(states[k]))
  }

  lemma {:induction false} Descent(efforts: seq<nat>, i: nat)
    requires i < |efforts| && forall k {:trigger efforts[k]} :: 0 <= k < |efforts| - 1 ==> efforts[k + 1] < efforts[k]
    ensures i + efforts[i] <= efforts[0]
    decreases i
  {
    if i > 0 {
      Descent(efforts, i - 1);
    }
  }

  /** Without new submissions every run is finite, whatever the schedule. */
  lemma RunsAreFinite(cfg: Config, states: seq<State>, events: seq<Event>)
    requires IsRun(cfg, states, events) && Inv(cfg, states[0]) && forall e <- events :: Internal(e)
    ensures |events| + Effort(states[|events|]) <= Effort(states[0])
    ensures Inv(cfg, states[|events|])
  {
    var efforts := Efforts(states);
    forall k {:trigger efforts[k]} | 0 <= k < |efforts| - 1 ensures efforts[k + 1] < efforts[k] {
      EffortInRun(cfg, states, events, k);
    }
    Descent(efforts, |events|);
    KeptFrom(cfg, states, events, |events|);
  }

  ghost predicate Stuck(cfg: Config, st: State) {
    forall e :: Internal(e) ==> !Enabled(cfg, st, e)
  }

  predicate Settled(cfg: Config, st: State) {
    && st.queue == [] && st.claimed == map[] && st.running == map[] && st.registering == {}
    && (st.waiting == {} || cfg.maxWorkers == 0)
  }

  /** No step leaves a state exactly if all work is done and every worker waits in the pool, or there are no workers. */
  lemma StuckIff(cfg: Config, st: State)
    requires Inv(cfg, st)
    ensures Stuck(cfg, st) <==> Settled(cfg, st)
    ensures Stuck(cfg, st) && cfg.maxWorkers > 0 ==> st.done == Below(st.next) && |st.pool| == cfg.maxWorkers
  {
    if Stuck(cfg, st) {
      NothingBlocks(cfg, st);
      StuckIsEmpty(cfg, st);
      PoolWhenIdle(cfg, st);
      if i :| i in st.waiting { assert !Enabled(cfg, st, Claim(i)); }
    }
    if Settled(cfg, st) {
      PoolWhenIdle(cfg, st);
      EmptyIsStuck(cfg, st);
    }
  }

  lemma EmptyIsStuck(cfg: Config, st: State)
    requires Settled(cfg, st) && |st.pool| == cfg.maxWorkers
    ensures Stuck(cfg, st)
  {
  }

  lemma StuckIsEmpty(cfg: Config, st: State)
    requires Stuck(cfg, st)
    requires forall w <- st.registering :: Enabled(cfg, st, Register(w))
    requires forall i <- st.claimed :: Enabled(cfg, st, Deliver(i))
    ensures st.queue == [] && st.claimed == map[] && st.running == map[] && st.registering == {}
  {
    assert !Enabled(cfg, st, Take);
    assert forall i :: i in st.claimed ==> Internal(Deliver(i)) && Enabled(cfg, st, Deliver(i));
    assert forall w :: w in st.running ==> Internal(Finish(w)) && Enabled(cfg, st, Finish(w));
    assert forall w :: w in st.registering ==> Internal(Register(w)) && Enabled(cfg, st, Register(w));
  }

  lemma PoolWhenIdle(cfg: Config, st: State)
    requires Inv(cfg, st) && st.claimed == map[] && st.running == map[] && st.registering == {}
    ensures |st.pool| == cfg.maxWorkers
  {
    SizeOfNoRepeats(st.pool);
    SizeOfBelow(cfg.maxWorkers);
    assert st.claimed.Values == {} && st.running.Keys == {};
    assert Elements(st.pool) == Below(cfg.maxWorkers);
  }
}
