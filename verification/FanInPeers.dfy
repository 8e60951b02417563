/** What becomes of a peer after each step of its fan-in (pkg/service/node/node.go, node_http_client.go). */
module FanInPeers {
  import opened Collections
  import opened PeerSelection
  import opened FanIn

  /** The two maps agree on every address but one. */
  ghost predicate SameBut(before: map<string, PeerFanIn>, after: map<string, PeerFanIn>, a: string) {
    forall b :: b != a ==> (b in after <==> b in before) && (b in before ==> after[b] == before[b])
  }

  predicate Serves(cfg: Config, servers: seq<string>, a: string) {
    exists s <- servers :: s != cfg.self && AddressOf(cfg.replicas, s) == a
  }

  lemma CandidateIff(cfg: Config, fanIns: map<string, PeerFanIn>, servers: seq<string>, a: string)
    requires Serves(cfg, servers, a)
    ensures a in Candidates(cfg.replicas, servers, cfg.self, fanIns.Keys) <==> a !in fanIns
  {
    var s :| s in servers && s != cfg.self && AddressOf(cfg.replicas, s) == a;
    assert Chosen(cfg.replicas, cfg.self, fanIns.Keys, s) <==> a !in fanIns;
  }

  /**
   * A request that is granted moves its peer on, with the id it got; any other outcome makes the peer a
   * candidate again. No other peer is touched, but a response that cannot be closed ends the task for
   * all peers behind this one.
   */
  lemma AfterRequest(cfg: Config, st: State, i: nat, grant: Grant, servers: seq<string>)
    requires HasTask(st, i, Request) && Serves(cfg, servers, st.tasks[i].left[0].address)
    ensures var f, st' := st.tasks[i].left[0], RequestStep(st, i, grant);
            && SameBut(st.fanIns, st'.fanIns, f.address)
            && (f.address in Candidates(cfg.replicas, servers, cfg.self, st'.fanIns.Keys) <==> !grant.Granted?)
            && (grant.Granted? ==> st'.fanIns[f.address] == PeerFanIn(f.address, grant.location, GotRequestId, f.logs))
            && st'.tasks[i].left == if grant.GrantUnclosed? then [] else st.tasks[i].left[1..]
  {
    CandidateIff(cfg, RequestStep(st, i, grant).fanIns, servers, st.tasks[i].left[0].address);
  }

  /**
   * A fetch that returns logs moves its peer on with them; one that was never sent leaves it as it was;
   * any other outcome makes the peer a candidate again. No other peer is touched.
   */
  lemma AfterCollect(cfg: Config, st: State, i: nat, fetch: Fetch, servers: seq<string>)
    requires HasTask(st, i, Collect) && Serves(cfg, servers, st.tasks[i].left[0].address)
    ensures var f, st' := st.tasks[i].left[0], CollectStep(st, i, fetch);
            && SameBut(st.fanIns, st'.fanIns, f.address)
            && (f.address in Candidates(cfg.replicas, servers, cfg.self, st'.fanIns.Keys) <==>
                  !fetch.Fetched? && !(fetch.FetchUnsent? && f.address in st.fanIns))
            && (fetch.Fetched? ==> st'.fanIns[f.address] == PeerFanIn(f.address, f.requestId, GotLogs, fetch.rows))
            && (fetch.FetchUnsent? ==> st'.fanIns == st.fanIns)
  {
    CandidateIff(cfg, CollectStep(st, i, fetch).fanIns, servers, st.tasks[i].left[0].address);
  }

  /** A committed peer is a candidate again, and one more completion is on its way. */
  lemma AfterCommit(cfg: Config, st: State, i: nat, servers: seq<string>)
    requires HasTask(st, i, Commit) && Serves(cfg, servers, st.tasks[i].left[0].address)
    ensures var f, st' := st.tasks[i].left[0], CommitStep(st, i);
            && SameBut(st.fanIns, st'.fanIns, f.address) && st'.finished == st.finished + [f]
            && f.address in Candidates(cfg.replicas, servers, cfg.self, st'.fanIns.Keys)
  {
    CandidateIff(cfg, CommitStep(st, i).fanIns, servers, st.tasks[i].left[0].address);
  }

  /** A completion is taken once: its peer is marked with what it returned, and no other changes. */
  lemma AfterComplete(cfg: Config, st: State, k: nat)
    requires k < |st.finished|
    ensures var f, st' := st.finished[k], CompleteStep(cfg, st, k);
            && f.address in st'.completed && st'.completed[f.address] == f
            && SameBut(st.completed, st'.completed, f.address)
            && multiset(st'.finished) + multiset{f} == multiset(st.finished)
  {
    assert st.finished == st.finished[..k] + [st.finished[k]] + st.finished[k + 1..];
  }

  lemma {:induction false} WalkFinds(fanIns: map<string, PeerFanIn>, order: seq<string>, a: string)
    requires a in order && forall x <- order :: x in fanIns
    ensures fanIns[a] in InState(fanIns, order, fanIns[a].state)
  {
    var last := order[|order| - 1];
    if a != last {
      assert a in order[..|order| - 1];
      WalkFinds(fanIns, order[..|order| - 1], a);
    }
  }

  /** A tick hands every peer in the map to the phase that its state calls for. */
  lemma EveryPeerHandedOn(cfg: Config, st: State, servers: seq<string>, addresses: seq<string>, order: seq<string>,
                          a: string)
    requires Enabled(cfg, st, Tick(servers, addresses, order))
    requires a in Step(cfg, st, Tick(servers, addresses, order)).fanIns
    ensures var st' := Step(cfg, st, Tick(servers, addresses, order));
            st'.tasks[..|st.tasks|] == st.tasks
            && exists t <- st'.tasks[|st.tasks|..] ::
                 StateFor(t.phase) == st'.fanIns[a].state && st'.fanIns[a] in t.left
  {
    var fanIns := WithFresh(st.fanIns, addresses);
    WalkFinds(fanIns, order, a);
    var asked := FreshAll(addresses) + InState(fanIns, order, NotStarted);
    var fetched, committed := InState(fanIns, order, GotRequestId), InState(fanIns, order, GotLogs);
    SpawnedTask(asked, fetched, committed, fanIns[a]);
  }

  lemma SpawnedTask(asked: seq<PeerFanIn>, fetched: seq<PeerFanIn>, committed: seq<PeerFanIn>, f: PeerFanIn)
    requires match f.state
             case NotStarted => f in asked
             case GotRequestId => f in fetched
             case GotLogs => f in committed
    ensures exists t <- Spawn(Request, asked) + Spawn(Collect, fetched) + Spawn(Commit, committed) ::
              StateFor(t.phase) == f.state && f in t.left
  {
    var (phase, copies) := match f.state {
      case NotStarted => (Request, asked)
      case GotRequestId => (Collect, fetched)
      case GotLogs => (Commit, committed)
    };
    assert Task(phase, copies) in Spawn(phase, copies);
  }

  /** A tick with room for all candidates selects every one of them. */
  lemma TickSelectsAll(cfg: Config, st: State, servers: seq<string>, addresses: seq<string>, order: seq<string>,
                       a: string)
    requires Enabled(cfg, st, Tick(servers, addresses, order))
    requires a in Candidates(cfg.replicas, servers, cfg.self, st.fanIns.Keys)
    requires |Candidates(cfg.replicas, servers, cfg.self, st.fanIns.Keys)| <= cfg.fanIn
    ensures a in addresses && Step(cfg, st, Tick(servers, addresses, order)).fanIns[a] == Fresh(a)
  {
    var candidates := Candidates(cfg.replicas, servers, cfg.self, st.fanIns.Keys);
    SizeOfNoRepeats(addresses);
    SubsetCount((set x | x in addresses), candidates);
    SelectionOverwritesNothing(cfg, st.fanIns, servers, addresses);
  }
}
