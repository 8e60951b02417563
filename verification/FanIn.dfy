/** The leader's three-phase fetch of its peers' logs (pkg/service/node/node.go, node_http_client.go). */
module FanIn {
  import opened Collections
  import opened ExecutionLog
  import opened PeerSelection

  datatype FanInState = NotStarted | GotRequestId | GotLogs

  datatype PeerFanIn = PeerFanIn(address: string, requestId: string, state: FanInState, logs: seq<Row>)

  datatype Config = Config(replicas: seq<Replica>, self: string, fanIn: nat)

  /** Outcome of the request for an execution-logs task. */
  datatype Grant = GrantUnsent | GrantFailed | GrantRefused | GrantUnclosed(id: string) | Granted(location: string)

  /** Outcome of the request for the collected logs. */
  datatype Fetch = FetchUnsent | FetchFailed | FetchRefused | FetchUnreadable | FetchUnclosed(data: seq<Row>)
                 | Fetched(rows: seq<Row>)

  // ---- one peer of one phase ----

  function AfterGrant(fanIns: map<string, PeerFanIn>, f: PeerFanIn, grant: Grant): map<string, PeerFanIn> {
    if grant.Granted? then fanIns[f.address := f.(requestId := grant.location, state := GotRequestId)]
    else fanIns - {f.address}
  }

  function AfterFetch(fanIns: map<string, PeerFanIn>, f: PeerFanIn, fetch: Fetch): map<string, PeerFanIn> {
    match fetch
    case FetchUnsent => fanIns
    case Fetched(rows) => fanIns[f.address := f.(logs := rows, state := GotLogs)]
    case _ => fanIns - {f.address}
  }

  // ---- the protocol ----

  datatype Phase = Request | Collect | Commit

  /** A goroutine of one phase and the copies it has still to work through. */
  datatype Task = Task(phase: Phase, left: seq<PeerFanIn>)

  /** Request ids handed out, request ids used, logs returned, and logs passed to the Raft insert. */
  datatype Trace = Trace(issued: set<(string, string)>, used: set<(string, string)>,
                         returned: set<(string, string, seq<Row>)>, handed: set<(string, string, seq<Row>)>)

  datatype State = State(fanIns: map<string, PeerFanIn>, completed: map<string, PeerFanIn>, accepting: bool,
                         singleNode: bool, tasks: seq<Task>, finished: seq<PeerFanIn>, trace: Trace)

  datatype Event =
    | Tick(servers: seq<string>, addresses: seq<string>, order: seq<string>)
    | RequestNext(task: nat, grant: Grant)
    | CollectNext(task: nat, fetch: Fetch)
    | CommitNext(task: nat)
    | Complete(k: nat)
    | Leadership(isLeader: bool, single: bool)

  const START := State(map[], map[], false, false, [], [], Trace({}, {}, {}, {}))

  function Fresh(address: string): PeerFanIn {
    PeerFanIn(address, "", NotStarted, [])
  }

  function FreshAll(addresses: seq<string>): seq<PeerFanIn> {
    seq(|addresses|, i requires 0 <= i < |addresses| => Fresh(addresses[i]))
  }

  function WithFresh(fanIns: map<string, PeerFanIn>, addresses: seq<string>): map<string, PeerFanIn> {
    map a | a in fanIns.Keys + (set x | x in addresses) :: if a in fanIns then fanIns[a] else Fresh(a)
  }

  /** The fan-ins in a given state, in the order the map happens to be walked. */
  function InState(fanIns: map<string, PeerFanIn>, order: seq<string>, state: FanInState): seq<PeerFanIn>
    requires forall a <- order :: a in fanIns
  {
    if order == [] then []
    else
      var f := fanIns[order[|order| - 1]];
      InState(fanIns, order[..|order| - 1], state) + if f.state == state then [f] else []
  }

  function Spawn(phase: Phase, copies: seq<PeerFanIn>): seq<Task> {
    if copies == [] then [] else [Task(phase, copies)]
  }

  ghost predicate WalksKeys(fanIns: map<string, PeerFanIn>, order: seq<string>) {
    NoRepeats(order) && forall a :: a in order <==> a in fanIns
  }

  /** The fresh peers are requested once from the selection and once more from the walk over the map. */
  function Spawned(fanIns: map<string, PeerFanIn>, addresses: seq<string>, order: seq<string>): seq<Task>
    requires forall a <- order :: a in fanIns
  {
    Spawn(Request, FreshAll(addresses) + InState(fanIns, order, NotStarted))
    + Spawn(Collect, InState(fanIns, order, GotRequestId))
    + Spawn(Commit, InState(fanIns, order, GotLogs))
  }

  function OtherAddresses(cfg: Config): set<string> {
    set r <- cfg.replicas | r.raftAddress != cfg.self :: r.address
  }

  /** Replicas with addresses of their own, the node among them. */
  predicate ValidConfig(cfg: Config) {
    && (forall i, k :: 0 <= i < k < |cfg.replicas| ==>
          && cfg.replicas[i].raftAddress != cfg.replicas[k].raftAddress
          && cfg.replicas[i].address != cfg.replicas[k].address)
    && Listed(cfg.replicas, cfg.self)
  }

  ghost predicate HasTask(st: State, task: nat, phase: Phase) {
    task < |st.tasks| && st.tasks[task].phase == phase && st.tasks[task].left != []
  }

  ghost predicate Enabled(cfg: Config, st: State, e: Event) {
    match e
    case Tick(servers, addresses, order) =>
      && (forall s <- servers :: Listed(cfg.replicas, s))
      && Selection(cfg.replicas, servers, cfg.self, st.fanIns.Keys, cfg.fanIn, addresses)
      && WalksKeys(WithFresh(st.fanIns, addresses), order)
    case RequestNext(task, _) => HasTask(st, task, Request)
    case CollectNext(task, _) => HasTask(st, task, Collect)
    case CommitNext(task) => HasTask(st, task, Commit)
    case Complete(k) => k < |st.finished|
    case Leadership(_, _) => true
  }

  function Popped(tasks: seq<Task>, i: nat): seq<Task>
    requires i < |tasks| && tasks[i].left != []
  {
    tasks[i := tasks[i].(left := tasks[i].left[1..])]
  }

  function RequestStep(st: State, i: nat, grant: Grant): State
    requires i < |st.tasks| && st.tasks[i].left != []
  {
    var f := st.tasks[i].left[0];
    var id := match grant {
      case Granted(l) => {(f.address, l)}
      case GrantUnclosed(l) => {(f.address, l)}
      case _ => {}
    };
    st.(fanIns := AfterGrant(st.fanIns, f, grant),
        tasks := if grant.GrantUnclosed? then st.tasks[i := Task(Request, [])] else Popped(st.tasks, i),
        trace := st.trace.(issued := st.trace.issued + id))
  }

  function CollectStep(st: State, i: nat, fetch: Fetch): State
    requires i < |st.tasks| && st.tasks[i].left != []
  {
    var f := st.tasks[i].left[0];
    var sent := if fetch.FetchUnsent? then {} else {(f.address, f.requestId)};
    var data := match fetch {
      case Fetched(rows) => {(f.address, f.requestId, rows)}
      case FetchUnclosed(rows) => {(f.address, f.requestId, rows)}
      case _ => {}
    };
    st.(fanIns := AfterFetch(st.fanIns, f, fetch), tasks := Popped(st.tasks, i),
        trace := st.trace.(used := st.trace.used + sent, returned := st.trace.returned + data))
  }

  function CommitStep(st: State, i: nat): State
    requires i < |st.tasks| && st.tasks[i].left != []
  {
    var f := st.tasks[i].left[0];
    var logs := if f.logs == [] then {} else {(f.address, f.requestId, f.logs)};
    st.(fanIns := st.fanIns - {f.address}, tasks := Popped(st.tasks, i), finished := st.finished + [f],
        trace := st.trace.(handed := st.trace.handed + logs))
  }

  function CompleteStep(cfg: Config, st: State, k: nat): State
    requires k < |st.finished|
  {
    var completed := st.completed[st.finished[k].address := st.finished[k]];
    st.(completed := completed, finished := st.finished[..k] + st.finished[k + 1..],
        accepting := st.accepting || |completed| == |cfg.replicas| - 1)
  }

  function LeadershipStep(st: State, isLeader: bool, single: bool): State {
    st.(accepting := isLeader && single, singleNode := if isLeader then single else st.singleNode)
  }

  function Step(cfg: Config, st: State, e: Event): State
    requires Enabled(cfg, st, e)
  {
    match e
    case Tick(_, addresses, order) =>
      var fanIns := WithFresh(st.fanIns, addresses);
      st.(fanIns := fanIns, tasks := st.tasks + Spawned(fanIns, addresses, order))
    case RequestNext(task, grant) => RequestStep(st, task, grant)
    case CollectNext(task, fetch) => CollectStep(st, task, fetch)
    case CommitNext(task) => CommitStep(st, task)
    case Complete(k) => CompleteStep(cfg, st, k)
    case Leadership(isLeader, single) => LeadershipStep(st, isLeader, single)
  }

  /** The states of a run, one per event. */
  ghost predicate IsRun(cfg: Config, states: seq<State>, events: seq<Event>) {
    && |states| == |events| + 1 && states[0] == START
    && forall i: nat {:trigger At(i)} :: At(i) && i < |events| ==>
         Enabled(cfg, states[i], events[i]) && states[i + 1] == Step(cfg, states[i], events[i])
  }

  // ---- what every run keeps ----

  /** A copy claims no more than its peer did: the id was issued by it, the logs were returned for that id. */
  predicate Earned(cfg: Config, trace: Trace, f: PeerFanIn) {
    && f.address in OtherAddresses(cfg)
    && (f.state != NotStarted ==> (f.address, f.requestId) in trace.issued)
    && (f.state == GotLogs ==> (f.address, f.requestId, f.logs) in trace.returned)
  }

  predicate Delivered(trace: Trace, f: PeerFanIn) {
    f.state == GotLogs && (f.logs != [] ==> (f.address, f.requestId, f.logs) in trace.handed)
  }

  ghost predicate MapOk(cfg: Config, trace: Trace, fanIns: map<string, PeerFanIn>) {
    forall a <- fanIns :: fanIns[a].address == a && Earned(cfg, trace, fanIns[a])
  }

  function StateFor(phase: Phase): FanInState {
    match phase case Request => NotStarted case Collect => GotRequestId case Commit => GotLogs
  }

  ghost predicate TaskOk(cfg: Config, trace: Trace, task: Task) {
    forall f <- task.left :: f.state == StateFor(task.phase) && Earned(cfg, trace, f)
  }

  ghost predicate TasksOk(cfg: Config, trace: Trace, tasks: seq<Task>) {
    forall t <- tasks :: TaskOk(cfg, trace, t)
  }

  ghost predicate FinishedOk(cfg: Config, trace: Trace, finished: seq<PeerFanIn>) {
    forall f <- finished :: Earned(cfg, trace, f) && Delivered(trace, f)
  }

  ghost predicate CompletedOk(cfg: Config, trace: Trace, completed: map<string, PeerFanIn>) {
    && MapOk(cfg, trace, completed)
    && forall a <- completed :: Delivered(trace, completed[a])
  }

  ghost predicate TraceOk(trace: Trace) {
    && trace.used <= trace.issued
    && trace.handed <= trace.returned
    && forall r <- trace.returned :: (r.0, r.1) in trace.used
  }

  ghost predicate GateOk(cfg: Config, st: State) {
    st.accepting ==> st.singleNode || st.completed.Keys == OtherAddresses(cfg)
  }

  ghost predicate Inv(cfg: Config, st: State) {
    && MapOk(cfg, st.trace, st.fanIns)
    && TasksOk(cfg, st.trace, st.tasks)
    && FinishedOk(cfg, st.trace, st.finished)
    && CompletedOk(cfg, st.trace, st.completed)
    && TraceOk(st.trace)
    && GateOk(cfg, st)
  }

  predicate Extends(a: Trace, b: Trace) {
    a.issued <= b.issued && a.used <= b.used && a.returned <= b.returned && a.handed <= b.handed
  }

  /** Nothing that was earned or delivered is ever taken back. */
  lemma TraceGrows(cfg: Config, st: State, trace: Trace)
    requires Inv(cfg, st) && Extends(st.trace, trace)
    ensures MapOk(cfg, trace, st.fanIns) && TasksOk(cfg, trace, st.tasks)
    ensures FinishedOk(cfg, trace, st.finished) && CompletedOk(cfg, trace, st.completed)
  {
    forall t | t in st.tasks ensures TaskOk(cfg, trace, t) {
      assert TaskOk(cfg, st.trace, t);
    }
  }

  lemma PoppedOk(cfg: Config, trace: Trace, tasks: seq<Task>, i: nat)
    requires TasksOk(cfg, trace, tasks) && i < |tasks| && tasks[i].left != []
    ensures TasksOk(cfg, trace, Popped(tasks, i))
    ensures TasksOk(cfg, trace, tasks[i := Task(tasks[i].phase, [])])
    ensures tasks[i].left[0].state == StateFor(tasks[i].phase) && Earned(cfg, trace, tasks[i].left[0])
  {
    assert TaskOk(cfg, trace, tasks[i]);
    assert TaskOk(cfg, trace, Popped(tasks, i)[i]);
  }

  lemma RequestKeeps(cfg: Config, st: State, i: nat, grant: Grant)
    requires Inv(cfg, st) && HasTask(st, i, Request)
    ensures Inv(cfg, RequestStep(st, i, grant))
  {
    var st' := RequestStep(st, i, grant);
    TraceGrows(cfg, st, st'.trace);
    PoppedOk(cfg, st'.trace, st.tasks, i);
  }

  lemma CollectKeeps(cfg: Config, st: State, i: nat, fetch: Fetch)
    requires Inv(cfg, st) && HasTask(st, i, Collect)
    ensures Inv(cfg, CollectStep(st, i, fetch))
  {
    var st' := CollectStep(st, i, fetch);
    PoppedOk(cfg, st.trace, st.tasks, i);
    TraceGrows(cfg, st, st'.trace);
    PoppedOk(cfg, st'.trace, st.tasks, i);
  }

  lemma CommitKeeps(cfg: Config, st: State, i: nat)
    requires Inv(cfg, st) && HasTask(st, i, Commit)
    ensures Inv(cfg, CommitStep(st, i))
  {
    var st' := CommitStep(st, i);
    PoppedOk(cfg, st.trace, st.tasks, i);
    TraceGrows(cfg, st, st'.trace);
    PoppedOk(cfg, st'.trace, st.tasks, i);
  }

  lemma CompleteKeeps(cfg: Config, st: State, k: nat)
    requires ValidConfig(cfg) && Inv(cfg, st) && k < |st.finished|
    ensures Inv(cfg, CompleteStep(cfg, st, k))
    ensures CompleteStep(cfg, st, k).accepting && !st.accepting ==>
              CompleteStep(cfg, st, k).completed.Keys == OtherAddresses(cfg)
  {
    var st' := CompleteStep(cfg, st, k);
    var f := st.finished[k];
    assert f in st.finished && Earned(cfg, st.trace, f);
    MarkedOk(cfg, st.trace, st.completed, f);
    assert |st'.completed| == |st'.completed.Keys|;
    AllOthersIff(cfg, st'.completed.Keys);
    SubsetCount(st.completed.Keys, st'.completed.Keys);
  }

  lemma MarkedOk(cfg: Config, trace: Trace, completed: map<string, PeerFanIn>, f: PeerFanIn)
    requires CompletedOk(cfg, trace, completed) && Earned(cfg, trace, f) && Delivered(trace, f)
    ensures CompletedOk(cfg, trace, completed[f.address := f])
    ensures completed.Keys <= completed[f.address := f].Keys <= OtherAddresses(cfg)
  {
    var completed' := completed[f.address := f];
    forall a | a in completed' ensures a in OtherAddresses(cfg) {
      assert completed'[a].address == a && Earned(cfg, trace, completed'[a]);
    }
  }

  /** Counting the completed peers is enough: as many as the other replicas means all of them. */
  lemma AllOthersIff(cfg: Config, completed: set<string>)
    requires ValidConfig(cfg) && completed <= OtherAddresses(cfg)
    ensures |completed| == |cfg.replicas| - 1 <==> completed == OtherAddresses(cfg)
  {
    OthersCount(cfg);
    SubsetCount(completed, OtherAddresses(cfg));
  }

  function AddressList(replicas: seq<Replica>): seq<string> {
    seq(|replicas|, i requires 0 <= i < |replicas| => replicas[i].address)
  }

  lemma AddressesDiffer(cfg: Config)
    requires ValidConfig(cfg)
    ensures NoRepeats(AddressList(cfg.replicas))
  {
  }

  lemma OthersCount(cfg: Config)
    requires ValidConfig(cfg)
    ensures |OtherAddresses(cfg)| == |cfg.replicas| - 1
  {
    var k :| 0 <= k < |cfg.replicas| && cfg.replicas[k].raftAddress == cfg.self;
    var addresses := AddressList(cfg.replicas);
    AddressesDiffer(cfg);
    SizeOfNoRepeats(addresses);
    SelfIsNoOther(cfg, k);
    AllAddresses(cfg, k, addresses);
    OneMore((set a | a in addresses), OtherAddresses(cfg), addresses[k]);
  }

  lemma OneMore(all: set<string>, others: set<string>, x: string)
    requires x !in others && all == others + {x}
    ensures |all| == |others| + 1
  {
  }

  lemma SelfIsNoOther(cfg: Config, k: nat)
    requires ValidConfig(cfg) && k < |cfg.replicas| && cfg.replicas[k].raftAddress == cfg.self
    ensures cfg.replicas[k].address !in OtherAddresses(cfg)
  {
    forall r | r in cfg.replicas && r.raftAddress != cfg.self ensures r.address != cfg.replicas[k].address {
      var i :| 0 <= i < |cfg.replicas| && cfg.replicas[i] == r;
      assert i < k || k < i;
    }
  }

  lemma AllAddresses(cfg: Config, k: nat, addresses: seq<string>)
    requires ValidConfig(cfg) && k < |cfg.replicas| && cfg.replicas[k].raftAddress == cfg.self
    requires |addresses| == |cfg.replicas|
    requires forall i :: 0 <= i < |addresses| ==> addresses[i] == cfg.replicas[i].address
    ensures (set a | a in addresses) == OtherAddresses(cfg) + {addresses[k]}
  {
    forall a | a in addresses && a != addresses[k] ensures a in OtherAddresses(cfg) {
      var i :| 0 <= i < |addresses| && addresses[i] == a;
      assert cfg.replicas[i] in cfg.replicas && (i < k || k < i);
    }
    forall r | r in cfg.replicas ensures r.address in addresses {
      var i :| 0 <= i < |cfg.replicas| && cfg.replicas[i] == r;
      assert addresses[i] == r.address;
    }
  }

  lemma {:induction false} ListedAddress(replicas: seq<Replica>, raft: string)
    requires Listed(replicas, raft)
    ensures exists r <- replicas :: r.raftAddress == raft && r.address == AddressOf(replicas, raft)
  {
    if replicas[0].raftAddress == raft {
      assert replicas[0] in replicas;
    } else {
      ListedAddress(replicas[1..], raft);
    }
  }

  /** Only other replicas are ever selected. */
  lemma SelectedAreOthers(cfg: Config, servers: seq<string>, exclude: set<string>, addresses: seq<string>)
    requires forall s <- servers :: Listed(cfg.replicas, s)
    requires Selection(cfg.replicas, servers, cfg.self, exclude, cfg.fanIn, addresses)
    ensures forall a <- addresses :: a in OtherAddresses(cfg)
  {
    forall a | a in addresses ensures a in OtherAddresses(cfg) {
      var s :| s in servers && Chosen(cfg.replicas, cfg.self, exclude, s) && AddressOf(cfg.replicas, s) == a;
      ListedAddress(cfg.replicas, s);
    }
  }

  lemma {:induction false} InStateOk(cfg: Config, trace: Trace, fanIns: map<string, PeerFanIn>, order: seq<string>,
                                     state: FanInState)
    requires MapOk(cfg, trace, fanIns) && forall a <- order :: a in fanIns
    ensures forall f <- InState(fanIns, order, state) :: f.state == state && Earned(cfg, trace, f)
  {
    if order != [] {
      InStateOk(cfg, trace, fanIns, order[..|order| - 1], state);
    }
  }

  lemma TickKeeps(cfg: Config, st: State, servers: seq<string>, addresses: seq<string>, order: seq<string>)
    requires Inv(cfg, st) && Enabled(cfg, st, Tick(servers, addresses, order))
    ensures Inv(cfg, Step(cfg, st, Tick(servers, addresses, order)))
  {
    SelectedAreOthers(cfg, servers, st.fanIns.Keys, addresses);
    var fanIns := WithFresh(st.fanIns, addresses);
    assert MapOk(cfg, st.trace, fanIns);
    InStateOk(cfg, st.trace, fanIns, order, NotStarted);
    InStateOk(cfg, st.trace, fanIns, order, GotRequestId);
    InStateOk(cfg, st.trace, fanIns, order, GotLogs);
    forall f | f in FreshAll(addresses) ensures f.state == NotStarted && Earned(cfg, st.trace, f) {
      var i :| 0 <= i < |addresses| && f == Fresh(addresses[i]);
    }
    SpawnedOk(cfg, st.trace, st.tasks, fanIns, addresses, order);
  }

  lemma SpawnedOk(cfg: Config, trace: Trace, tasks: seq<Task>, fanIns: map<string, PeerFanIn>, addresses: seq<string>,
                  order: seq<string>)
    requires TasksOk(cfg, trace, tasks) && forall a <- order :: a in fanIns
    requires TaskOk(cfg, trace, Task(Request, FreshAll(addresses)))
    requires TaskOk(cfg, trace, Task(Request, InState(fanIns, order, NotStarted)))
    requires TaskOk(cfg, trace, Task(Collect, InState(fanIns, order, GotRequestId)))
    requires TaskOk(cfg, trace, Task(Commit, InState(fanIns, order, GotLogs)))
    ensures TasksOk(cfg, trace, tasks + Spawned(fanIns, addresses, order))
  {
    var asked := FreshAll(addresses) + InState(fanIns, order, NotStarted);
    assert TaskOk(cfg, trace, Task(Request, asked));
    SpawnOk(cfg, trace, tasks, Request, asked);
    SpawnOk(cfg, trace, tasks + Spawn(Request, asked), Collect, InState(fanIns, order, GotRequestId));
    SpawnOk(cfg, trace, tasks + Spawn(Request, asked) + Spawn(Collect, InState(fanIns, order, GotRequestId)), Commit,
            InState(fanIns, order, GotLogs));
    assert tasks + Spawned(fanIns, addresses, order)
        == tasks + Spawn(Request, asked) + Spawn(Collect, InState(fanIns, order, GotRequestId))
           + Spawn(Commit, InState(fanIns, order, GotLogs));
  }

  lemma SpawnOk(cfg: Config, trace: Trace, tasks: seq<Task>, phase: Phase, copies: seq<PeerFanIn>)
    requires TasksOk(cfg, trace, tasks) && TaskOk(cfg, trace, Task(phase, copies))
    ensures TasksOk(cfg, trace, tasks + Spawn(phase, copies))
  {
  }

  lemma StepKeeps(cfg: Config, st: State, e: Event)
    requires ValidConfig(cfg) && Inv(cfg, st) && Enabled(cfg, st, e)
    ensures Inv(cfg, Step(cfg, st, e))
  {
    match e
    case Tick(servers, addresses, order) => TickKeeps(cfg, st, servers, addresses, order);
    case RequestNext(task, grant) => RequestKeeps(cfg, st, task, grant);
    case CollectNext(task, fetch) => CollectKeeps(cfg, st, task, fetch);
    case CommitNext(task) => CommitKeeps(cfg, st, task);
    case Complete(k) => CompleteKeeps(cfg, st, k);
    case Leadership(_, _) =>
  }

  lemma {:induction false} EveryStateKeeps(cfg: Config, states: seq<State>, events: seq<Event>, i: nat)
    requires ValidConfig(cfg) && IsRun(cfg, states, events) && i < |states|
    ensures Inv(cfg, states[i])
    decreases i
  {
    if i > 0 {
      EveryStateKeeps(cfg, states, events, i - 1);
      assert At(i - 1);
      StepKeeps(cfg, states[i - 1], events[i - 1]);
    }
  }

  /** The second phase only ever asks a peer for a request id that the same peer issued. */
  lemma IdsComeFromTheirPeer(cfg: Config, states: seq<State>, events: seq<Event>, i: nat)
    requires ValidConfig(cfg) && IsRun(cfg, states, events) && i < |states|
    ensures states[i].trace.used <= states[i].trace.issued
    ensures forall r <- states[i].trace.handed :: r in states[i].trace.returned && (r.0, r.1) in states[i].trace.used
  {
    EveryStateKeeps(cfg, states, events, i);
  }

  /** A completed peer has returned logs, and they were handed to the Raft insert unless there were none. */
  lemma CompletedWereHanded(cfg: Config, states: seq<State>, events: seq<Event>, i: nat, a: string)
    requires ValidConfig(cfg) && IsRun(cfg, states, events) && i < |states| && a in states[i].completed
    ensures var f := states[i].completed[a];
            && f.address == a && (a, f.requestId, f.logs) in states[i].trace.returned
            && (f.logs == [] || (a, f.requestId, f.logs) in states[i].trace.handed)
  {
    EveryStateKeeps(cfg, states, events, i);
  }

  /**
   * In a cluster the node accepts writes only while every other replica has completed; each of them
   * then has its returned logs behind it.
   */
  lemma WritesNeedEveryPeer(cfg: Config, states: seq<State>, events: seq<Event>, i: nat)
    requires ValidConfig(cfg) && IsRun(cfg, states, events) && i < |states|
    requires states[i].accepting && !states[i].singleNode
    ensures states[i].completed.Keys == OtherAddresses(cfg)
    ensures forall a <- OtherAddresses(cfg) ::
              Delivered(states[i].trace, states[i].completed[a]) && states[i].completed[a].address == a
  {
    EveryStateKeeps(cfg, states, events, i);
  }

  /** Selecting peers leaves every fan-in under way as it is, and starts one for each selected address. */
  lemma SelectionOverwritesNothing(cfg: Config, fanIns: map<string, PeerFanIn>, servers: seq<string>,
                                   addresses: seq<string>)
    requires Selection(cfg.replicas, servers, cfg.self, fanIns.Keys, cfg.fanIn, addresses)
    ensures forall a <- fanIns :: a in WithFresh(fanIns, addresses) && WithFresh(fanIns, addresses)[a] == fanIns[a]
    ensures forall a <- addresses :: a !in fanIns && WithFresh(fanIns, addresses)[a] == Fresh(a)
    ensures |WithFresh(fanIns, addresses)| == |fanIns| + |addresses|
  {
    forall a | a in addresses ensures a !in fanIns {
      assert a in Candidates(cfg.replicas, servers, cfg.self, fanIns.Keys);
    }
    SizeOfNoRepeats(addresses);
    KeysAdded(fanIns, WithFresh(fanIns, addresses), set a | a in addresses);
  }

  lemma KeysAdded(fanIns: map<string, PeerFanIn>, fanIns': map<string, PeerFanIn>, added: set<string>)
    requires fanIns'.Keys == fanIns.Keys + added && fanIns.Keys !! added
    ensures |fanIns'| == |fanIns| + |added|
  {
    assert |fanIns'| == |fanIns'.Keys| && |fanIns| == |fanIns.Keys|;
  }

  lemma WithFreshNext(fanIns: map<string, PeerFanIn>, addresses: seq<string>, a: string)
    requires a !in fanIns
    ensures WithFresh(fanIns, addresses + [a]) == WithFresh(fanIns, addresses)[a := Fresh(a)]
  {
  }

  lemma {:induction false} WalkedOnce(fanIns: map<string, PeerFanIn>, order: seq<string>, state: FanInState, a: string)
    requires NoRepeats(order) && (forall x <- order :: x in fanIns && fanIns[x].address == x) && a in fanIns
    requires fanIns[a].address == a
    ensures multiset(InState(fanIns, order, state))[fanIns[a]]
            == if a in order && fanIns[a].state == state then 1 else 0
  {
    if order != [] {
      var init, last := order[..|order| - 1], order[|order| - 1];
      assert last !in init && order == init + [last];
      WalkedOnce(fanIns, init, state, a);
      CountNext(InState(fanIns, init, state), fanIns[last], fanIns[last].state == state, fanIns[a]);
    }
  }

  lemma CountNext(before: seq<PeerFanIn>, f: PeerFanIn, found: bool, x: PeerFanIn)
    ensures multiset(before + if found then [f] else [])[x] == multiset(before)[x] + if found && f == x then 1 else 0
  {
  }

  /** Each tick asks every newly selected peer for a request id twice. */
  lemma FreshAskedTwice(cfg: Config, st: State, servers: seq<string>, addresses: seq<string>, order: seq<string>,
                        a: string)
    requires Inv(cfg, st) && Enabled(cfg, st, Tick(servers, addresses, order)) && a in addresses
    ensures var fanIns := WithFresh(st.fanIns, addresses);
            && Spawned(fanIns, addresses, order) != []
            && Spawned(fanIns, addresses, order)[0].phase == Request
            && multiset(Spawned(fanIns, addresses, order)[0].left)[Fresh(a)] == 2
  {
    var fanIns := WithFresh(st.fanIns, addresses);
    SelectionOverwritesNothing(cfg, st.fanIns, servers, addresses);
    WalkedOnce(fanIns, order, NotStarted, a);
    FreshOnce(addresses, a);
    AskedFirst(fanIns, addresses, order, Fresh(a));
  }

  lemma AskedFirst(fanIns: map<string, PeerFanIn>, addresses: seq<string>, order: seq<string>, f: PeerFanIn)
    requires (forall a <- order :: a in fanIns) && addresses != []
    ensures var tasks := Spawned(fanIns, addresses, order);
            && tasks != [] && tasks[0].phase == Request
            && multiset(tasks[0].left)[f]
               == multiset(FreshAll(addresses))[f] + multiset(InState(fanIns, order, NotStarted))[f]
  {
    var asked := FreshAll(addresses) + InState(fanIns, order, NotStarted);
    assert Spawn(Request, asked) == [Task(Request, asked)];
  }

  lemma {:induction false} FreshOnce(addresses: seq<string>, a: string)
    requires NoRepeats(addresses)
    ensures multiset(FreshAll(addresses))[Fresh(a)] == if a in addresses then 1 else 0
  {
    if addresses != [] {
      FreshOnce(addresses[1..], a);
      assert FreshAll(addresses) == [Fresh(addresses[0])] + FreshAll(addresses[1..]);
      assert addresses == [addresses[0]] + addresses[1..];
    }
  }

  // ---- the node ----

  function GrantAll(fanIns: map<string, PeerFanIn>, copies: seq<PeerFanIn>, grants: nat -> Grant, k: nat)
    : map<string, PeerFanIn>
    decreases |copies|
  {
    if copies == [] then fanIns
    else
      var after := AfterGrant(fanIns, copies[0], grants(k));
      if grants(k).GrantUnclosed? then after else GrantAll(after, copies[1..], grants, k + 1)
  }

  function FetchAll(fanIns: map<string, PeerFanIn>, copies: seq<PeerFanIn>, fetches: nat -> Fetch, k: nat)
    : map<string, PeerFanIn>
    decreases |copies|
  {
    if copies == [] then fanIns
    else FetchAll(AfterFetch(fanIns, copies[0], fetches(k)), copies[1..], fetches, k + 1)
  }

  /** A request task left to itself: the steps of the protocol, one after the other. */
  function RunRequests(st: State, i: nat, grants: nat -> Grant, k: nat): State
    requires i < |st.tasks|
    decreases |st.tasks[i].left|
  {
    if st.tasks[i].left == [] then st else RunRequests(RequestStep(st, i, grants(k)), i, grants, k + 1)
  }

  lemma {:induction false} RequestsUninterrupted(st: State, i: nat, grants: nat -> Grant, k: nat)
    requires i < |st.tasks|
    ensures RunRequests(st, i, grants, k).fanIns == GrantAll(st.fanIns, st.tasks[i].left, grants, k)
    decreases |st.tasks[i].left|
  {
    if st.tasks[i].left != [] {
      RequestsUninterrupted(RequestStep(st, i, grants(k)), i, grants, k + 1);
    }
  }

  function RunCollects(st: State, i: nat, fetches: nat -> Fetch, k: nat): State
    requires i < |st.tasks|
    decreases |st.tasks[i].left|
  {
    if st.tasks[i].left == [] then st else RunCollects(CollectStep(st, i, fetches(k)), i, fetches, k + 1)
  }

  lemma {:induction false} CollectsUninterrupted(st: State, i: nat, fetches: nat -> Fetch, k: nat)
    requires i < |st.tasks|
    ensures RunCollects(st, i, fetches, k).fanIns == FetchAll(st.fanIns, st.tasks[i].left, fetches, k)
    decreases |st.tasks[i].left|
  {
    if st.tasks[i].left != [] {
      CollectsUninterrupted(CollectStep(st, i, fetches(k)), i, fetches, k + 1);
    }
  }

  function RunCommits(st: State, i: nat): State
    requires i < |st.tasks|
    decreases |st.tasks[i].left|
  {
    if st.tasks[i].left == [] then st else RunCommits(CommitStep(st, i), i)
  }

  function Removed(fanIns: map<string, PeerFanIn>, copies: seq<PeerFanIn>): map<string, PeerFanIn>
    decreases |copies|
  {
    if copies == [] then fanIns else Removed(fanIns - {copies[0].address}, copies[1..])
  }

  lemma InsertsNext(before: seq<PeerFanIn>, copies: seq<PeerFanIn>)
    requires copies != []
    ensures before + Inserts(copies)
            == (if copies[0].logs == [] then before else before + [copies[0]]) + Inserts(copies[1..])
  {
  }

  function Handed(inserts: seq<PeerFanIn>): set<(string, string, seq<Row>)> {
    set f <- inserts :: (f.address, f.requestId, f.logs)
  }

  /** The arguments of the Raft inserts made for a list of copies. */
  function Inserts(copies: seq<PeerFanIn>): seq<PeerFanIn> {
    if copies == [] then []
    else (if copies[0].logs == [] then [] else [copies[0]]) + Inserts(copies[1..])
  }

  lemma {:induction false} CommitsUninterrupted(st: State, i: nat)
    requires i < |st.tasks|
    ensures var st', copies := RunCommits(st, i), st.tasks[i].left;
            && st'.fanIns == Removed(st.fanIns, copies)
            && st'.finished == st.finished + copies
            && st'.trace.handed == st.trace.handed + Handed(Inserts(copies))
    decreases |st.tasks[i].left|
  {
    var copies := st.tasks[i].left;
    if copies != [] {
      var next := CommitStep(st, i);
      assert next.tasks[i].left == copies[1..];
      CommitsUninterrupted(next, i);
      assert st.finished + [copies[0]] + copies[1..] == st.finished + copies;
      HandedNext(st.trace.handed, copies);
    }
  }

  lemma HandedNext(handed: set<(string, string, seq<Row>)>, copies: seq<PeerFanIn>)
    requires copies != []
    ensures var f := copies[0];
            handed + Handed(Inserts(copies))
            == handed + (if f.logs == [] then {} else {(f.address, f.requestId, f.logs)}) + Handed(Inserts(copies[1..]))
  {
    if copies[0].logs != [] {
      assert Inserts(copies)[0] == copies[0] && Inserts(copies)[1..] == Inserts(copies[1..]);
    }
  }

  class Node {
    var fanIns: map<string, PeerFanIn>
    var completed: map<string, PeerFanIn>
    var accepting: bool
    var singleNode: bool
    const cfg: Config

    constructor (cfg: Config)
      ensures this.cfg == cfg && fanIns == map[] && completed == map[] && !accepting && !singleNode
    {
      this.cfg := cfg;
      fanIns, completed, accepting, singleNode := map[], map[], false, false;
    }

    method SelectRandomPeersToFanIn(servers: seq<string>, draw: nat -> nat)
      returns (peerFanIns: seq<PeerFanIn>, ghost addresses: seq<string>)
      requires Drawn(draw) && DistinctAddresses(cfg.replicas, servers)
      modifies this`fanIns
      ensures Selection(cfg.replicas, servers, cfg.self, old(fanIns).Keys, cfg.fanIn, addresses)
      ensures fanIns == WithFresh(old(fanIns), addresses) && peerFanIns == FreshAll(addresses)
    {
      var httpAddresses :=
        GetRandomFanInPeerHTTPAddresses(cfg.replicas, servers, cfg.self, fanIns.Keys, cfg.fanIn, draw);
      addresses := httpAddresses;
      ghost var known := fanIns;
      peerFanIns := [];
      for i := 0 to |httpAddresses|
        invariant fanIns == WithFresh(known, httpAddresses[..i])
        invariant |peerFanIns| == i && forall k :: 0 <= k < i ==> peerFanIns[k] == Fresh(httpAddresses[k])
      {
        var httpAddress := httpAddresses[i];
        assert httpAddresses[..i + 1] == httpAddresses[..i] + [httpAddress];
        assert httpAddress in httpAddresses && httpAddress !in known && httpAddress !in httpAddresses[..i];
        WithFreshNext(known, httpAddresses[..i], httpAddress);
        if httpAddress !in fanIns {
          var newFanIn := PeerFanIn(httpAddress, "", NotStarted, []);
          fanIns := fanIns[httpAddress := newFanIn];
          peerFanIns := peerFanIns + [newFanIn];
        }
      }
      assert httpAddresses[..|httpAddresses|] == httpAddresses;
    }

    /** One tick: the copies handed to each phase. */
    method FanInLocalDataFromPeers(servers: seq<string>, draw: nat -> nat)
      returns (phase1: seq<PeerFanIn>, phase2: seq<PeerFanIn>, phase3: seq<PeerFanIn>,
               ghost addresses: seq<string>, ghost order: seq<string>)
      requires Drawn(draw) && DistinctAddresses(cfg.replicas, servers)
      modifies this`fanIns
      ensures Selection(cfg.replicas, servers, cfg.self, old(fanIns).Keys, cfg.fanIn, addresses)
      ensures fanIns == WithFresh(old(fanIns), addresses) && WalksKeys(fanIns, order)
      ensures Spawned(fanIns, addresses, order)
           == Spawn(Request, phase1) + Spawn(Collect, phase2) + Spawn(Commit, phase3)
    {
      var peers;
      peers, addresses := SelectRandomPeersToFanIn(servers, draw);
      var range1;
      range1, phase2, phase3, order := Range();
      phase1 := peers + range1;
    }

    method Range()
      returns (phase1: seq<PeerFanIn>, phase2: seq<PeerFanIn>, phase3: seq<PeerFanIn>, ghost order: seq<string>)
      ensures WalksKeys(fanIns, order)
      ensures phase1 == InState(fanIns, order, NotStarted)
      ensures phase2 == InState(fanIns, order, GotRequestId)
      ensures phase3 == InState(fanIns, order, GotLogs)
    {
      phase1, phase2, phase3, order := [], [], [], [];
      var left := fanIns.Keys;
      while left != {}
        invariant NoRepeats(order) && forall a :: a in fanIns <==> a in order || a in left
        invariant forall a <- order :: a !in left
        invariant phase1 == InState(fanIns, order, NotStarted)
        invariant phase2 == InState(fanIns, order, GotRequestId)
        invariant phase3 == InState(fanIns, order, GotLogs)
        decreases left
      {
        var key :| key in left;
        var fanIn := fanIns[key];
        if fanIn.state == NotStarted { phase1 := phase1 + [fanIn]; }
        if fanIn.state == GotRequestId { phase2 := phase2 + [fanIn]; }
        if fanIn.state == GotLogs { phase3 := phase3 + [fanIn]; }
        assert (order + [key])[..|order|] == order;
        order, left := order + [key], left - {key};
      }
    }

    method FetchUncommittedLogsFromPeersPhase1(peerFanIns: seq<PeerFanIn>, grants: nat -> Grant)
      modifies this`fanIns
      ensures fanIns == GrantAll(old(fanIns), peerFanIns, grants, 0)
    {
      for i := 0 to |peerFanIns|
        invariant GrantAll(fanIns, peerFanIns[i..], grants, i) == GrantAll(old(fanIns), peerFanIns, grants, 0)
      {
        var peerFanIn := peerFanIns[i];
        match grants(i)
        case GrantUnsent => fanIns := fanIns - {peerFanIn.address};
        case GrantFailed => fanIns := fanIns - {peerFanIn.address};
        case GrantRefused => fanIns := fanIns - {peerFanIn.address};
        case GrantUnclosed(_) =>
          fanIns := fanIns - {peerFanIn.address};
          return;
        case Granted(location) =>
          peerFanIn := peerFanIn.(requestId := location);
          peerFanIn := peerFanIn.(state := GotRequestId);
          fanIns := fanIns[peerFanIn.address := peerFanIn];
      }
    }

    method FetchUncommittedLogsFromPeersPhase2(peerFanIns: seq<PeerFanIn>, fetches: nat -> Fetch)
      modifies this`fanIns
      ensures fanIns == FetchAll(old(fanIns), peerFanIns, fetches, 0)
    {
      for i := 0 to |peerFanIns|
        invariant FetchAll(fanIns, peerFanIns[i..], fetches, i) == FetchAll(old(fanIns), peerFanIns, fetches, 0)
      {
        var peerFanIn := peerFanIns[i];
        match fetches(i)
        case FetchUnsent =>
        case FetchFailed => fanIns := fanIns - {peerFanIn.address};
        case FetchRefused => fanIns := fanIns - {peerFanIn.address};
        case FetchUnreadable => fanIns := fanIns - {peerFanIn.address};
        case FetchUnclosed(_) => fanIns := fanIns - {peerFanIn.address};
        case Fetched(rows) =>
          peerFanIn := peerFanIn.(logs := rows);
          peerFanIn := peerFanIn.(state := GotLogs);
          fanIns := fanIns[peerFanIn.address := peerFanIn];
      }
    }

    /** `inserted` are the copies whose logs went to the Raft insert, `sent` those put on the channel, in order. */
    method CommitFetchedUnCommittedLogs(peerFanIns: seq<PeerFanIn>)
      returns (inserted: seq<PeerFanIn>, sent: seq<PeerFanIn>)
      modifies this`fanIns
      ensures fanIns == Removed(old(fanIns), peerFanIns)
      ensures inserted == Inserts(peerFanIns) && sent == peerFanIns
    {
      inserted, sent := [], [];
      var rest := peerFanIns;
      while rest != []
        invariant Removed(fanIns, rest) == Removed(old(fanIns), peerFanIns)
        invariant inserted + Inserts(rest) == Inserts(peerFanIns)
        invariant sent + rest == peerFanIns
        decreases |rest|
      {
        var peerFanIn := rest[0];
        InsertsNext(inserted, rest);
        rest := rest[1..];
        if |peerFanIn.logs| > 0 {
          inserted := inserted + [peerFanIn];
        }
        fanIns := fanIns - {peerFanIn.address};
        sent := sent + [peerFanIn];
      }
    }

    method HandleCompletedPeerFanIn(peerFanIn: PeerFanIn)
      modifies this`completed, this`accepting
      ensures completed == old(completed)[peerFanIn.address := peerFanIn]
      ensures accepting == (old(accepting) || |completed| == |cfg.replicas| - 1)
    {
      completed := completed[peerFanIn.address := peerFanIn];
      var count, left := 0, completed.Keys;
      while left != {}
        invariant count + |left| == |completed.Keys|
        decreases left
      {
        var key :| key in left;
        count, left := count + 1, left - {key};
      }
      assert count == |completed|;
      if count == |cfg.replicas| - 1 && !accepting {
        accepting := true;
      }
    }

    method HandleRaftLeadershipChanges(isLeader: bool, servers: seq<string>)
      modifies this`accepting, this`singleNode
      ensures accepting == (isLeader && |servers| == 1)
      ensures singleNode == if isLeader then |servers| == 1 else old(singleNode)
    {
      accepting := false;
      if isLeader {
        singleNode := |servers| == 1;
        if singleNode {
          accepting := true;
        }
      }
    }
  }
}
