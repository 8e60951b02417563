/** What the completed peers of an earlier leadership do to the next one (pkg/service/node/node.go). */
module FanInElection {
  import opened Collections
  import opened ExecutionLog
  import opened PeerSelection
  import opened FanIn

  /**
   * The completed set outlives an election. After one, a peer that completes opens the gate exactly
   * if every other peer has completed at some time, before the election or since.
   */
  lemma OldCompletionsReopen(cfg: Config, st: State, k: nat)
    requires ValidConfig(cfg) && Inv(cfg, st) && k < |st.finished|
    ensures !LeadershipStep(st, true, false).accepting
    ensures CompleteStep(cfg, LeadershipStep(st, true, false), k).accepting
            <==> OtherAddresses(cfg) - {st.finished[k].address} <= st.completed.Keys
  {
    assert st.finished[k] in st.finished;
    CountAfter(cfg, st.trace, st.completed, st.finished[k]);
  }

  lemma CountAfter(cfg: Config, trace: Trace, completed: map<string, PeerFanIn>, f: PeerFanIn)
    requires ValidConfig(cfg) && CompletedOk(cfg, trace, completed) && Earned(cfg, trace, f) && Delivered(trace, f)
    ensures |completed[f.address := f]| == |cfg.replicas| - 1 <==> OtherAddresses(cfg) - {f.address} <= completed.Keys
  {
    MarkedOk(cfg, trace, completed, f);
    KeysAfter(completed, f.address, f);
    AllWithOne(cfg, completed.Keys, f.address);
  }

  lemma KeysAfter<K, V>(m: map<K, V>, k: K, v: V)
    ensures m[k := v].Keys == m.Keys + {k} && |m[k := v]| == |m.Keys + {k}|
  {
    assert |m[k := v]| == |m[k := v].Keys|;
  }

  lemma AllWithOne(cfg: Config, completed: set<string>, a: string)
    requires ValidConfig(cfg) && completed + {a} <= OtherAddresses(cfg)
    ensures |completed + {a}| == |cfg.replicas| - 1 <==> OtherAddresses(cfg) - {a} <= completed
  {
    AllOthersIff(cfg, completed + {a});
  }

  function CompletedBy(st: State, e: Event): set<string> {
    if e.Complete? && e.k < |st.finished| then {st.finished[e.k].address} else {}
  }

  function Completed(states: seq<State>): seq<set<string>> {
    seq(|states|, i requires 0 <= i < |states| => states[i].completed.Keys)
  }

  lemma CompletedAt(states: seq<State>, i: nat)
    requires i < |states|
    ensures Completed(states)[i] == states[i].completed.Keys
  {
  }

  /** The peer each event of a run completes, if any. */
  function Completions(states: seq<State>, events: seq<Event>): seq<set<string>>
    requires |states| > |events|
  {
    seq(|events|, i requires 0 <= i < |events| => CompletedBy(states[i], events[i]))
  }

  function Union(sets: seq<set<string>>, from: nat, until: nat): set<string>
    requires until <= |sets|
    decreases until
  {
    if until <= from then {} else Union(sets, from, until - 1) + sets[until - 1]
  }

  /** The peers completed by the events from number `from` up to but not including `until`. */
  function CompletedIn(states: seq<State>, events: seq<Event>, from: nat, until: nat): set<string>
    requires until <= |events| < |states|
  {
    Union(Completions(states, events), from, until)
  }

  ghost predicate Grows(keys: seq<set<string>>, added: seq<set<string>>) {
    |keys| == |added| + 1 && forall i {:trigger added[i]} :: 0 <= i < |added| ==> keys[i + 1] == keys[i] + added[i]
  }

  lemma {:induction false} GrowsBy(keys: seq<set<string>>, added: seq<set<string>>, from: nat, until: nat)
    requires Grows(keys, added) && from <= until <= |added|
    ensures keys[until] == keys[from] + Union(added, from, until)
    decreases until
  {
    if until > from {
      GrowsBy(keys, added, from, until - 1);
      assert keys[until] == keys[until - 1] + added[until - 1];
    }
  }

  lemma StepCompletes(cfg: Config, st: State, e: Event)
    requires Enabled(cfg, st, e)
    ensures Step(cfg, st, e).completed.Keys == st.completed.Keys + CompletedBy(st, e)
  {
  }

  /** Completed peers accumulate over every run, elections included. */
  lemma CompletedAccumulates(cfg: Config, states: seq<State>, events: seq<Event>)
    requires IsRun(cfg, states, events)
    ensures Grows(Completed(states), Completions(states, events))
  {
    forall i | 0 <= i < |events|
      ensures states[i + 1].completed.Keys == states[i].completed.Keys + CompletedBy(states[i], events[i])
    {
      assert At(i);
      StepCompletes(cfg, states[i], events[i]);
    }
  }

  /** The gate opens at step `i`, in the leadership that began at step `e` and has lasted since. */
  ghost predicate OpensAfter(cfg: Config, states: seq<State>, events: seq<Event>, e: nat, i: nat) {
    && IsRun(cfg, states, events) && e < i < |events|
    && events[e] == Leadership(true, false) && events[i].Complete?
    && (forall k {:trigger events[k]} :: e < k <= i ==> !events[k].Leadership?)
    && !states[i].accepting && states[i + 1].accepting
  }

  /**
   * When the gate opens after an election, all other replicas have completed; they have all
   * completed since that election exactly if no peer had completed only before it.
   */
  lemma GateAfterElectionIff(cfg: Config, states: seq<State>, events: seq<Event>, e: nat, i: nat)
    requires ValidConfig(cfg) && OpensAfter(cfg, states, events, e, i)
    ensures states[i + 1].completed.Keys == OtherAddresses(cfg)
    ensures var since := CompletedIn(states, events, e + 1, i + 1);
            && states[e].completed.Keys + since == OtherAddresses(cfg)
            && (since == OtherAddresses(cfg) <==> states[e].completed.Keys <= since)
  {
    OpeningCompletes(cfg, states, events, i);
    CompletedAccumulates(cfg, states, events);
    var keys, added := Completed(states), Completions(states, events);
    CompletedAt(states, e);
    CompletedAt(states, i + 1);
    assert added[e] == {};
    CompletedSince(keys, added, e, i + 1, OtherAddresses(cfg));
  }

  lemma CompletedSince(keys: seq<set<string>>, added: seq<set<string>>, e: nat, until: nat, all: set<string>)
    requires Grows(keys, added) && e < until <= |added| && added[e] == {} && keys[until] == all
    ensures keys[e] + Union(added, e + 1, until) == all
    ensures Union(added, e + 1, until) == all <==> keys[e] <= Union(added, e + 1, until)
  {
    GrowsPast(keys, added, e, until);
  }

  lemma GrowsPast(keys: seq<set<string>>, added: seq<set<string>>, e: nat, until: nat)
    requires Grows(keys, added) && e < until <= |added| && added[e] == {}
    ensures keys[until] == keys[e] + Union(added, e + 1, until)
  {
    GrowsBy(keys, added, e + 1, until);
    assert keys[e + 1] == keys[e] + added[e];
  }

  lemma OpeningCompletes(cfg: Config, states: seq<State>, events: seq<Event>, i: nat)
    requires ValidConfig(cfg) && IsRun(cfg, states, events) && i < |events| && events[i].Complete?
    requires !states[i].accepting && states[i + 1].accepting
    ensures states[i + 1].completed.Keys == OtherAddresses(cfg)
  {
    EveryStateKeeps(cfg, states, events, i);
    assert At(i);
    CompleteKeeps(cfg, states[i], events[i].k);
  }

  // ---- a run in which the gate reopens too early ----

  const CFG := Config([Replica("a", "ra"), Replica("b", "rb"), Replica("c", "rc")], "ra", 2)

  const NEW_B := Fresh("b")
  const NEW_C := Fresh("c")
  const ASKED_B := PeerFanIn("b", "1", GotRequestId, [])
  const ASKED_C := PeerFanIn("c", "1", GotRequestId, [])
  const READ_B := PeerFanIn("b", "1", GotLogs, [])
  const READ_C := PeerFanIn("c", "1", GotLogs, [])

  const BOTH := [NEW_B, NEW_C]

  /** The peers are selected and asked for a request id; each is in the first task twice. */
  function S1(): State {
    START.(fanIns := map["b" := NEW_B, "c" := NEW_C], tasks := [Task(Request, BOTH + BOTH)])
  }

  function S2(): State {
    S1().(fanIns := map["b" := ASKED_B, "c" := NEW_C], tasks := [Task(Request, [NEW_C] + BOTH)],
      trace := Trace({("b", "1")}, {}, {}, {}))
  }

  function S3(): State {
    S2().(fanIns := map["b" := ASKED_B, "c" := ASKED_C], tasks := [Task(Request, BOTH)],
      trace := Trace({("b", "1"), ("c", "1")}, {}, {}, {}))
  }

  /** Their logs are read; there are none. */
  function S4(): State {
    S3().(tasks := [Task(Request, BOTH), Task(Collect, [ASKED_B, ASKED_C])])
  }

  function S5(): State {
    S4().(fanIns := map["b" := READ_B, "c" := ASKED_C],
      tasks := [Task(Request, BOTH), Task(Collect, [ASKED_C])],
      trace := S4().trace.(used := {("b", "1")}, returned := {("b", "1", [])}))
  }

  function S6(): State {
    S5().(fanIns := map["b" := READ_B, "c" := READ_C], tasks := [Task(Request, BOTH), Task(Collect, [])],
      trace := S5().trace.(used := {("b", "1"), ("c", "1")}, returned := {("b", "1", []), ("c", "1", [])}))
  }

  /** Two ticks start a commit task each, on the same two peers. */
  function S7(): State {
    S6().(tasks := S6().tasks + [Task(Commit, [READ_B, READ_C])])
  }

  function S8(): State {
    S7().(tasks := S7().tasks + [Task(Commit, [READ_B, READ_C])])
  }

  /** The first one completes both peers, and the gate opens. */
  function S9(): State {
    S8().(fanIns := map["c" := READ_C], tasks := S8().tasks[2 := Task(Commit, [READ_C])], finished := [READ_B])
  }

  function S10(): State {
    S9().(fanIns := map[], tasks := S8().tasks[2 := Task(Commit, [])], finished := [READ_B, READ_C])
  }

  function S11(): State {
    S10().(completed := map["b" := READ_B], finished := [READ_C])
  }

  function S12(): State {
    S11().(completed := map["b" := READ_B, "c" := READ_C], finished := [], accepting := true)
  }

  /** The node loses an election and wins the next; the second task is still at work, and one peer is enough. */
  function S13(): State {
    S12().(accepting := false)
  }

  function S14(): State {
    S13().(tasks := S13().tasks[3 := Task(Commit, [READ_C])], finished := [READ_B])
  }

  function S15(): State {
    S14().(finished := [], accepting := true)
  }

  const SERVERS := ["ra", "rb", "rc"]

  const SELECT := Tick(SERVERS, ["b", "c"], ["b", "c"])

  /** Once both peers are in the map no further one is a candidate. */
  const WALK := Tick(SERVERS, [], ["b", "c"])

  lemma FirstWalk()
    ensures WalksKeys(S1().fanIns, ["b", "c"])
    ensures Spawned(S1().fanIns, ["b", "c"], ["b", "c"]) == [Task(Request, BOTH + BOTH)]
  {
    assert S1().fanIns.Keys == {"b", "c"};
    OneTask(S1().fanIns, "b", "c", Request, ["b", "c"], BOTH + BOTH);
  }

  lemma SelectStep()
    ensures Enabled(CFG, START, SELECT) && Step(CFG, START, SELECT) == S1()
  {
    AllListed();
    BothSelected();
    FirstWalk();
    assert START.fanIns.Keys == {} && WithFresh(START.fanIns, ["b", "c"]) == S1().fanIns;
    assert START.tasks + [Task(Request, BOTH + BOTH)] == S1().tasks;
  }

  lemma BothSelected()
    ensures Selection(CFG.replicas, SERVERS, CFG.self, {}, CFG.fanIn, ["b", "c"])
  {
    Addresses();
    CandidatesLeft({});
  }

  lemma AllListed()
    ensures forall s <- SERVERS :: Listed(CFG.replicas, s)
  {
    assert CFG.replicas[0] in CFG.replicas && CFG.replicas[1] in CFG.replicas && CFG.replicas[2] in CFG.replicas;
  }

  lemma CandidatesLeft(known: set<string>)
    ensures Candidates(CFG.replicas, SERVERS, CFG.self, known) == {"b", "c"} - known
  {
    Addresses();
    assert "rb" in SERVERS && "rc" in SERVERS;
  }

  lemma Addresses()
    ensures AddressOf(CFG.replicas, "rb") == "b" && AddressOf(CFG.replicas, "rc") == "c"
  {
    var rest := CFG.replicas[1..];
    assert AddressOf(CFG.replicas, "rb") == AddressOf(rest, "rb");
    assert AddressOf(CFG.replicas, "rc") == AddressOf(rest, "rc") == AddressOf(rest[1..], "rc");
  }

  /** What a walk over two entries finds in a given state. */
  lemma Walk(fanIns: map<string, PeerFanIn>, b: string, c: string, s: FanInState)
    requires b != c && fanIns.Keys == {b, c} && fanIns[b].state == fanIns[c].state
    ensures WalksKeys(fanIns, [b, c])
    ensures InState(fanIns, [b, c], s) == if fanIns[b].state == s then [fanIns[b], fanIns[c]] else []
  {
    var order := [b, c];
    assert order[..1] == [b] && order[..1][..0] == [];
    assert InState(fanIns, order[..1][..0], s) == [];
    assert InState(fanIns, order[..1], s) == if fanIns[b].state == s then [fanIns[b]] else [];
  }

  /** A walk that finds both entries in one state starts one task. */
  lemma OneTask(fanIns: map<string, PeerFanIn>, b: string, c: string, phase: Phase, addresses: seq<string>,
                copies: seq<PeerFanIn>)
    requires b != c && fanIns.Keys == {b, c} && fanIns[b].state == fanIns[c].state == StateFor(phase)
    requires addresses == if phase == Request then [b, c] else []
    requires copies == if phase == Request then [Fresh(b), Fresh(c), fanIns[b], fanIns[c]] else [fanIns[b], fanIns[c]]
    ensures WalksKeys(fanIns, [b, c])
    ensures Spawned(fanIns, addresses, [b, c]) == [Task(phase, copies)]
  {
    Walk(fanIns, b, c, NotStarted);
    Walk(fanIns, b, c, GotRequestId);
    Walk(fanIns, b, c, GotLogs);
    var asked := FreshAll(addresses) + InState(fanIns, [b, c], NotStarted);
    FreshCopies(fanIns, b, c, phase, addresses);
    assert asked == if phase == Request then copies else [];
    TaskList(phase, asked, InState(fanIns, [b, c], GotRequestId), InState(fanIns, [b, c], GotLogs), copies);
  }

  lemma FreshCopies(fanIns: map<string, PeerFanIn>, b: string, c: string, phase: Phase, addresses: seq<string>)
    requires addresses == if phase == Request then [b, c] else []
    ensures FreshAll(addresses) == if phase == Request then [Fresh(b), Fresh(c)] else []
  {
  }

  lemma TaskList(phase: Phase, n: seq<PeerFanIn>, r: seq<PeerFanIn>, l: seq<PeerFanIn>, copies: seq<PeerFanIn>)
    requires copies != [] && n == (if phase == Request then copies else [])
    requires r == (if phase == Collect then copies else []) && l == (if phase == Commit then copies else [])
    ensures Spawn(Request, n) + Spawn(Collect, r) + Spawn(Commit, l) == [Task(phase, copies)]
  {
  }

  lemma NoneSelected(fanIns: map<string, PeerFanIn>)
    requires fanIns.Keys == {"b", "c"}
    ensures Selection(CFG.replicas, SERVERS, CFG.self, fanIns.Keys, CFG.fanIn, []) && WithFresh(fanIns, []) == fanIns
  {
    CandidatesLeft(fanIns.Keys);
  }

  lemma WalkStep(st: State, phase: Phase)
    requires st.fanIns.Keys == {"b", "c"} && phase != Request
    requires st.fanIns["b"].state == st.fanIns["c"].state == StateFor(phase)
    ensures Enabled(CFG, st, WALK)
    ensures Step(CFG, st, WALK) == st.(tasks := st.tasks + [Task(phase, [st.fanIns["b"], st.fanIns["c"]])])
  {
    AllListed();
    NoneSelected(st.fanIns);
    OneTask(st.fanIns, "b", "c", phase, [], [st.fanIns["b"], st.fanIns["c"]]);
  }

  lemma AskSteps()
    ensures Enabled(CFG, S1(), RequestNext(0, Granted("1"))) && Step(CFG, S1(), RequestNext(0, Granted("1"))) == S2()
    ensures Enabled(CFG, S2(), RequestNext(0, Granted("1"))) && Step(CFG, S2(), RequestNext(0, Granted("1"))) == S3()
  {
    assert (BOTH + BOTH)[1..] == [NEW_C] + BOTH && ([NEW_C] + BOTH)[1..] == BOTH;
  }

  lemma WalkToRead()
    ensures Enabled(CFG, S3(), WALK) && Step(CFG, S3(), WALK) == S4()
  {
    assert S3().fanIns.Keys == {"b", "c"};
    WalkStep(S3(), Collect);
  }

  lemma ReadFirst()
    ensures Enabled(CFG, S4(), CollectNext(1, Fetched([]))) && Step(CFG, S4(), CollectNext(1, Fetched([]))) == S5()
  {
    assert [ASKED_B, ASKED_C][1..] == [ASKED_C];
  }

  lemma ReadSecond()
    ensures Enabled(CFG, S5(), CollectNext(1, Fetched([]))) && Step(CFG, S5(), CollectNext(1, Fetched([]))) == S6()
  {
    assert [ASKED_C][1..] == [];
    assert S5().trace.used + {("c", "1")} == S6().trace.used;
    assert S5().trace.returned + {("c", "1", [])} == S6().trace.returned;
  }

  lemma TickSteps()
    ensures Enabled(CFG, S6(), WALK) && Step(CFG, S6(), WALK) == S7()
    ensures Enabled(CFG, S7(), WALK) && Step(CFG, S7(), WALK) == S8()
  {
    assert S6().fanIns.Keys == {"b", "c"};
    WalkStep(S6(), Commit);
    WalkStep(S7(), Commit);
  }

  lemma CommitSteps()
    ensures Enabled(CFG, S8(), CommitNext(2)) && Step(CFG, S8(), CommitNext(2)) == S9()
    ensures Enabled(CFG, S9(), CommitNext(2)) && Step(CFG, S9(), CommitNext(2)) == S10()
    ensures Enabled(CFG, S13(), CommitNext(3)) && Step(CFG, S13(), CommitNext(3)) == S14()
  {
    assert [READ_B, READ_C][1..] == [READ_C] && [READ_C][1..] == [];
  }

  lemma CompleteSteps()
    ensures Enabled(CFG, S10(), Complete(0)) && Step(CFG, S10(), Complete(0)) == S11()
    ensures Enabled(CFG, S11(), Complete(0)) && Step(CFG, S11(), Complete(0)) == S12()
    ensures Step(CFG, S12(), Leadership(false, false)) == S13() == Step(CFG, S13(), Leadership(true, false))
    ensures Enabled(CFG, S14(), Complete(0)) && Step(CFG, S14(), Complete(0)) == S15()
  {
  }

  lemma Do(states: seq<State>, events: seq<Event>, e: Event, next: State)
    returns (states': seq<State>, events': seq<Event>)
    requires IsRun(CFG, states, events) && Enabled(CFG, states[|events|], e) && next == Step(CFG, states[|events|], e)
    ensures states' == states + [next] && events' == events + [e]
    ensures IsRun(CFG, states', events')
  {
    states', events' := states + [next], events + [e];
    forall i: nat | At(i) && i < |events'|
      ensures Enabled(CFG, states'[i], events'[i]) && states'[i + 1] == Step(CFG, states'[i], events'[i])
    {
      if i < |events| { assert At(i); }
    }
  }

  lemma RunToAsked() returns (states: seq<State>, events: seq<Event>)
    ensures IsRun(CFG, states, events) && states[|events|] == S3()
  {
    states, events := Do([START], [], Leadership(true, false), START);
    SelectStep();
    states, events := Do(states, events, SELECT, S1());
    AskSteps();
    states, events := Do(states, events, RequestNext(0, Granted("1")), S2());
    states, events := Do(states, events, RequestNext(0, Granted("1")), S3());
  }

  lemma RunToRead() returns (states: seq<State>, events: seq<Event>)
    ensures IsRun(CFG, states, events) && states[|events|] == S6()
  {
    states, events := RunToAsked();
    WalkToRead();
    states, events := Do(states, events, WALK, S4());
    ReadFirst();
    states, events := Do(states, events, CollectNext(1, Fetched([])), S5());
    ReadSecond();
    states, events := Do(states, events, CollectNext(1, Fetched([])), S6());
  }

  lemma RunToOpen() returns (states: seq<State>, events: seq<Event>)
    ensures IsRun(CFG, states, events) && states[|events|] == S12()
  {
    states, events := RunToRead();
    TickSteps();
    states, events := Do(states, events, WALK, S7());
    states, events := Do(states, events, WALK, S8());
    CommitSteps();
    states, events := Do(states, events, CommitNext(2), S9());
    states, events := Do(states, events, CommitNext(2), S10());
    CompleteSteps();
    states, events := Do(states, events, Complete(0), S11());
    states, events := Do(states, events, Complete(0), S12());
  }

  /**
   * A run of three replicas that the Raft configuration lists throughout: the node is elected, both
   * peers complete and the gate opens; it loses the leadership and wins it back with event number
   * `e`; then a task left over from before completes one peer again, and the gate reopens though the
   * other peer has not been asked since.
   */
  lemma GateReopensEarly() returns (states: seq<State>, events: seq<Event>, e: nat)
    ensures ValidConfig(CFG) && OtherAddresses(CFG) == {"b", "c"}
    ensures OpensAfter(CFG, states, events, e, e + 2)
    ensures CompletedIn(states, events, e + 1, e + 3) == {"b"}
  {
    ThreeReplicas();
    states, events := RunToOpen();
    e := |events| + 1;
    states, events := ElectAndReopen(states, events);
    OneCompletion(states, events, e + 1);
  }

  lemma ElectAndReopen(states: seq<State>, events: seq<Event>) returns (states': seq<State>, events': seq<Event>)
    requires IsRun(CFG, states, events) && states[|events|] == S12()
    ensures IsRun(CFG, states', events')
    ensures states' == states + [S13()] + [S13()] + [S14()] + [S15()]
    ensures events' == events + [Leadership(false, false)] + [Leadership(true, false)] + [CommitNext(3)] + [Complete(0)]
  {
    states', events' := Elect(states, events);
    CommitSteps();
    states', events' := Do(states', events', CommitNext(3), S14());
    CompleteSteps();
    states', events' := Do(states', events', Complete(0), S15());
  }

  lemma Elect(states: seq<State>, events: seq<Event>) returns (states': seq<State>, events': seq<Event>)
    requires IsRun(CFG, states, events) && states[|events|] == S12()
    ensures IsRun(CFG, states', events')
    ensures states' == states + [S13()] + [S13()]
    ensures events' == events + [Leadership(false, false)] + [Leadership(true, false)]
  {
    CompleteSteps();
    states', events' := Do(states, events, Leadership(false, false), S13());
    states', events' := Do(states', events', Leadership(true, false), S13());
  }

  lemma OneCompletion(states: seq<State>, events: seq<Event>, i: nat)
    requires i + 2 == |events| < |states| && !events[i].Complete? && events[i + 1] == Complete(0)
    requires states[i + 1].finished != []
    ensures CompletedIn(states, events, i, i + 2) == {states[i + 1].finished[0].address}
  {
    var added := Completions(states, events);
    assert added[i] == {} && added[i + 1] == {states[i + 1].finished[0].address};
    assert Union(added, i, i + 1) == Union(added, i, i) + added[i];
  }

  lemma ThreeReplicas()
    ensures ValidConfig(CFG) && OtherAddresses(CFG) == {"b", "c"}
  {
    assert CFG.replicas[0] in CFG.replicas && CFG.replicas[1] in CFG.replicas && CFG.replicas[2] in CFG.replicas;
  }
}
