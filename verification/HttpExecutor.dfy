/** Sending batches of jobs to their callback urls, with retries (pkg/service/executor/executors/http_post.go). */
module HttpExecutor {
  import opened JobSchedule
  import opened ExecutionLog
  import opened Executor
  import opened Lifecycle
  import opened Batcher

  // ---- grouping ----

  function OnUrl(jobs: seq<Job>, url: string): seq<Job> {
    if jobs == [] then []
    else OnUrl(jobs[..|jobs| - 1], url) + if jobs[|jobs| - 1].url == url then [jobs[|jobs| - 1]] else []
  }

  method GroupByUrl(pending: seq<Job>) returns (groups: map<string, seq<Job>>)
    ensures forall u :: u in groups <==> OnUrl(pending, u) != []
    ensures forall u <- groups :: groups[u] == OnUrl(pending, u)
  {
    groups := map[];
    for i := 0 to |pending|
      invariant forall u :: u in groups <==> OnUrl(pending[..i], u) != []
      invariant forall u <- groups :: groups[u] == OnUrl(pending[..i], u)
    {
      assert pending[..i + 1][..i] == pending[..i];
      var job := pending[i];
      if job.url !in groups {
        groups := groups[job.url := [job]];
      } else {
        groups := groups[job.url := groups[job.url] + [job]];
      }
    }
    assert pending[..|pending|] == pending;
  }

  /** Every pending job is sent to its own url as often as it is pending, and to no other url. */
  lemma {:induction false} GroupsConserve(pending: seq<Job>, job: Job, url: string)
    ensures multiset(OnUrl(pending, url))[job] == if job.url == url then multiset(pending)[job] else 0
  {
    if pending != [] {
      var n := |pending| - 1;
      GroupsConserve(pending[..n], job, url);
      assert pending == pending[..n] + [pending[n]];
      assert multiset(pending)[job] == multiset(pending[..n])[job] + if pending[n] == job then 1 else 0;
    }
  }

  /** A group keeps the order of its jobs: grouping two lists one after the other is grouping both. */
  lemma {:induction false} GroupsInOrder(a: seq<Job>, b: seq<Job>, url: string)
    ensures OnUrl(a + b, url) == OnUrl(a, url) + OnUrl(b, url)
    decreases |b|
  {
    if b == [] {
      assert a + b == a;
    } else {
      GroupsInOrder(a, b[..|b| - 1], url);
      assert (a + b)[..|a + b| - 1] == a + b[..|b| - 1] && (a + b)[|a + b| - 1] == b[|b| - 1];
    }
  }

  /** Cutting a group into payloads keeps that. */
  lemma PayloadsConserve(pending: seq<Job>, job: Job, url: string, m: nat)
    ensures multiset(Flatten(Chunks(OnUrl(pending, url), m)))[job]
            == if job.url == url then multiset(pending)[job] else 0
  {
    ChunksPartition(OnUrl(pending, url), m);
    GroupsConserve(pending, job, url);
  }

  // ---- attempts ----

  datatype Reply = NoRequest | NoResponse | Response(status: nat)

  /** The test the sender applies to a reply. */
  predicate Accepted(reply: Reply) {
    reply.Response? && (reply.status >= 200 || reply.status <= 299)
  }

  /** The test accepts every status code, so a server error is never retried. */
  lemma AnyResponseAccepted(reply: Reply)
    ensures Accepted(reply) <==> reply.Response?
  {
  }

  function OutcomeOf(reply: Reply): LogState {
    if Accepted(reply) then Success else Failed
  }

  /** Attempts made from reply number `from` on, with `left` retries left after it. */
  function Attempts(replies: nat -> Reply, from: nat, left: nat): (n: nat)
    ensures 1 <= n <= left + 1
    decreases left
  {
    if Accepted(replies(from)) || left == 0 then 1 else 1 + Attempts(replies, from + 1, left - 1)
  }

  /** A response ends the attempts whatever its status; only requests without one are tried again. */
  lemma {:induction false} OnlySilenceIsRetried(replies: nat -> Reply, from: nat, left: nat)
    ensures var n := Attempts(replies, from, left);
            && (forall i :: from <= i < from + n - 1 ==> !replies(i).Response?)
            && (n <= left ==> replies(from + n - 1).Response?)
    decreases left
  {
    AnyResponseAccepted(replies(from));
    if !replies(from).Response? && left > 0 {
      OnlySilenceIsRetried(replies, from + 1, left - 1);
    }
  }

  function StepAll(env: Env, st: State, events: seq<Event>): State
    requires Ticking(env.cron)
  {
    if events == [] then st
    else Step(env, StepAll(env, st, events[..|events| - 1]), events[|events| - 1])
  }

  /** Event `i` is the callback for reply `i` on the whole batch, with the log's answer at that point. */
  ghost predicate Served(env: Env, st: State, batch: seq<Job>, replies: nat -> Reply, events: seq<Event>)
    requires Ticking(env.cron)
  {
    events != [] ==>
      var n := |events| - 1;
      && Served(env, st, batch, replies, events[..n])
      && Serves(StepAll(env, st, events[..n]), batch, replies(n), events[n])
  }

  ghost predicate Serves(st: State, batch: seq<Job>, reply: Reply, event: Event) {
    && event.Called? && event.jobs == batch && event.outcome == OutcomeOf(reply)
    && LastRows(LogRows(st), Ids(batch) - st.cache.Keys, event.answer)
  }

  /** One attempt: the request, and the callback its reply selects. */
  method Attempt(executor: JobExecutor, batch: seq<Job>, reply: Reply, now: Instant, queueVersion: nat)
    returns (failed: bool, ghost event: Event)
    requires Ticking(executor.env.cron)
    modifies executor, executor.tables
    ensures failed == !Accepted(reply)
    ensures Serves(old(executor.View()), batch, reply, event)
    ensures executor.View() == Step(executor.env, old(executor.View()), event)
  {
    ghost var answer: map<nat, Row>;
    if reply.NoRequest? {
      answer := executor.HandleJobs(batch, Failed, now, queueVersion);
      return true, Called(batch, Failed, answer, now, queueVersion);
    }
    if reply.NoResponse? {
      answer := executor.HandleJobs(batch, Failed, now, queueVersion);
      return true, Called(batch, Failed, answer, now, queueVersion);
    }
    if reply.status >= 200 || reply.status <= 299 {
      answer := executor.HandleJobs(batch, Success, now, queueVersion);
      return false, Called(batch, Success, answer, now, queueVersion);
    }
    assert false;
  }

  /** RetryOnError around the attempts of one batch. */
  method RunBatch(executor: JobExecutor, batch: seq<Job>, replies: nat -> Reply, clock: nat -> Instant,
                  queueVersion: nat)
    returns (failed: bool, ghost events: seq<Event>)
    requires Ticking(executor.env.cron)
    modifies executor, executor.tables
    ensures |events| == Attempts(replies, 0, executor.env.retryMax)
    ensures Ran(executor.env, old(executor.View()), batch, replies, events, executor.View())
    ensures failed == !Accepted(replies(|events| - 1))
  {
    ghost var env, st := executor.env, executor.View();
    ghost var event: Event;
    failed, event := Attempt(executor, batch, replies(0), clock(0), queueVersion);
    events := [event];
    FirstAttempt(env, st, batch, replies, event);
    var numberOfRetriesLeft, made := executor.env.retryMax, 1;
    while failed && numberOfRetriesLeft > 0
      invariant numberOfRetriesLeft >= 0 && |events| == made >= 1
      invariant failed == !Accepted(replies(made - 1))
      invariant MadeSoFar(replies, env.retryMax, made, if failed then numberOfRetriesLeft else 0)
      invariant Ran(env, st, batch, replies, events, executor.View())
    {
      MadeNext(replies, env.retryMax, made, numberOfRetriesLeft);
      ghost var reached := executor.View();
      failed, event := Attempt(executor, batch, replies(made), clock(made), queueVersion);
      ExtendRun(env, st, batch, replies, events, reached, event);
      events := events + [event];
      made := made + 1;
      if failed {
        numberOfRetriesLeft := numberOfRetriesLeft - 1;
      }
    }
  }

  /** `made` attempts are done and `left` more are allowed. */
  predicate MadeSoFar(replies: nat -> Reply, retryMax: nat, made: nat, left: nat) {
    Attempts(replies, 0, retryMax) == made + if left == 0 then 0 else Attempts(replies, made, left - 1)
  }

  lemma MadeNext(replies: nat -> Reply, retryMax: nat, made: nat, left: nat)
    requires MadeSoFar(replies, retryMax, made, left) && left > 0
    ensures MadeSoFar(replies, retryMax, made + 1, if Accepted(replies(made)) then 0 else left - 1)
  {
  }

  /** The callbacks for the replies so far took the node from `st` to `reached`. */
  ghost predicate Ran(env: Env, st: State, batch: seq<Job>, replies: nat -> Reply, events: seq<Event>, reached: State)
    requires Ticking(env.cron)
  {
    Served(env, st, batch, replies, events) && reached == StepAll(env, st, events)
  }

  lemma FirstAttempt(env: Env, st: State, batch: seq<Job>, replies: nat -> Reply, event: Event)
    requires Ticking(env.cron) && Serves(st, batch, replies(0), event)
    ensures Ran(env, st, batch, replies, [event], Step(env, st, event))
  {
    assert [event] == [] + [event];
    ExtendRun(env, st, batch, replies, [], st, event);
  }

  lemma ExtendRun(env: Env, st: State, batch: seq<Job>, replies: nat -> Reply, events: seq<Event>, reached: State,
                  event: Event)
    requires Ticking(env.cron) && Ran(env, st, batch, replies, events, reached)
    requires Serves(reached, batch, replies(|events|), event)
    ensures Ran(env, st, batch, replies, events + [event], Step(env, reached, event))
  {
    assert (events + [event])[..|events|] == events;
  }

  // ---- what a batch does to each job ----

  function Failures(retryMax: nat, p: Progress, n: nat): Progress {
    if n == 0 then p else Advance(retryMax, Failures(retryMax, p, n - 1), Failed)
  }

  /** Failures are counted in base `retryMax + 1`: the fail count is the low digit, the version the carry. */
  lemma {:induction false} FailuresCarry(retryMax: nat, p: Progress, n: nat)
    requires p.fails <= retryMax
    ensures Failures(retryMax, p, n) ==
            Progress(p.version + (p.fails + n) / (retryMax + 1), (p.fails + n) % (retryMax + 1))
    decreases n
  {
    if n == 0 {
      DivUnique(p.fails, retryMax + 1, 0, p.fails);
    } else {
      FailuresCarry(retryMax, p, n - 1);
      SuccessorDigits(p.fails + n - 1, retryMax + 1);
    }
  }

  lemma SuccessorDigits(x: nat, m: nat)
    requires m > 0
    ensures x % m < m - 1 ==> (x + 1) / m == x / m && (x + 1) % m == x % m + 1
    ensures x % m == m - 1 ==> (x + 1) / m == x / m + 1 && (x + 1) % m == 0
  {
    var q, r := x / m, x % m;
    assert x == q * m + r;
    if r < m - 1 {
      DivUnique(x + 1, m, q, r + 1);
    } else {
      NextMultiple(q, m);
      DivUnique(x + 1, m, q + 1, 0);
    }
  }

  /** Where the attempts of one batch take a job. */
  function AfterBatch(retryMax: nat, p: Progress, replies: nat -> Reply, from: nat, left: nat): Progress
    decreases left
  {
    var p' := Advance(retryMax, p, OutcomeOf(replies(from)));
    if Accepted(replies(from)) || left == 0 then p' else AfterBatch(retryMax, p', replies, from + 1, left - 1)
  }

  /** A batch ends in a success after some failures, or in `left + 1` failures. */
  lemma {:induction false} AfterBatchShape(retryMax: nat, p: Progress, replies: nat -> Reply, from: nat, left: nat)
    requires p.fails <= retryMax
    ensures var n := Attempts(replies, from, left);
            && n <= left + 1
            && AfterBatch(retryMax, p, replies, from, left) ==
               (if Accepted(replies(from + n - 1)) then Advance(retryMax, Failures(retryMax, p, n - 1), Success)
                else Failures(retryMax, p, n))
            && (!Accepted(replies(from + n - 1)) ==> n == left + 1)
    decreases left
  {
    if !Accepted(replies(from)) && left > 0 {
      var p' := Advance(retryMax, p, Failed);
      AfterBatchShape(retryMax, p', replies, from + 1, left - 1);
      var n := Attempts(replies, from + 1, left - 1);
      FailuresShift(retryMax, p, n - 1);
      FailuresShift(retryMax, p, n);
    } else {
      assert Failures(retryMax, p, 1) == Advance(retryMax, Failures(retryMax, p, 0), Failed);
    }
  }

  lemma {:induction false} FailuresShift(retryMax: nat, p: Progress, n: nat)
    ensures Failures(retryMax, Advance(retryMax, p, Failed), n) == Failures(retryMax, p, n + 1)
  {
    if n > 0 {
      FailuresShift(retryMax, p, n - 1);
    } else {
      assert Failures(retryMax, p, 1) == Advance(retryMax, Failures(retryMax, p, 0), Failed);
    }
  }

  lemma OneVersion(retryMax: nat, p: Progress, replies: nat -> Reply)
    requires p.fails == 0
    ensures AfterBatch(retryMax, p, replies, 0, retryMax) == Progress(p.version + 1, 0)
  {
    AfterBatchShape(retryMax, p, replies, 0, retryMax);
    var n := Attempts(replies, 0, retryMax);
    FailuresCarry(retryMax, p, n - 1);
    FailuresCarry(retryMax, p, n);
    DivUnique(n - 1, retryMax + 1, 0, n - 1);
    if n == retryMax + 1 { DivUnique(n, retryMax + 1, 1, 0); }
  }

  /**
   * Whatever the replies, a batch under the same retry limit moves a job on by exactly one version
   * with no failure left over exactly when the job entered it without counted failures.
   */
  lemma OneVersionPerBatchIff(retryMax: nat, p: Progress)
    requires p.fails <= retryMax
    ensures (forall replies :: AfterBatch(retryMax, p, replies, 0, retryMax) == Progress(p.version + 1, 0))
            <==> p.fails == 0
  {
    if p.fails == 0 {
      forall replies: nat -> Reply
        ensures AfterBatch(retryMax, p, replies, 0, retryMax) == Progress(p.version + 1, 0)
      {
        OneVersion(retryMax, p, replies);
      }
    } else {
      var replies: nat -> Reply := i => NoResponse;
      AfterBatchShape(retryMax, p, replies, 0, retryMax);
      var n := Attempts(replies, 0, retryMax);
      FailuresCarry(retryMax, p, n);
      NextMultiple(1, retryMax + 1);
      DivUnique(p.fails + retryMax + 1, retryMax + 1, 1, p.fails);
    }
  }

  /** The events of one batch, run on the node's real state, take every job of it where the replies say. */
  lemma {:induction false} BatchFollowsReplies(env: Env, st: State, prog: map<nat, Progress>, batch: seq<Job>,
                                               replies: nat -> Reply, events: seq<Event>)
    requires Ticking(env.cron) && Inv(env, st, prog) && Distinct(batch) && Ids(batch) <= prog.Keys
    requires Served(env, st, batch, replies, events)
    ensures Inv(env, StepAll(env, st, events), AdvancedBy(env.retryMax, prog, Ids(batch), replies, |events|))
    decreases |events|
  {
    if |events| == 0 {
      AdvancedByStep(env.retryMax, prog, Ids(batch), replies, 0);
      assert StepAll(env, st, events) == st;
    } else {
      var init := events[..|events| - 1];
      BatchFollowsReplies(env, st, prog, batch, replies, init);
      assert |init| == |events| - 1;
      LastReply(env, st, prog, batch, replies, events);
    }
  }

  lemma LastReply(env: Env, st: State, prog: map<nat, Progress>, batch: seq<Job>, replies: nat -> Reply,
                  events: seq<Event>)
    requires Ticking(env.cron) && Distinct(batch) && Ids(batch) <= prog.Keys
    requires events != [] && Served(env, st, batch, replies, events)
    requires var n := |events| - 1;
             Inv(env, StepAll(env, st, events[..n]), AdvancedBy(env.retryMax, prog, Ids(batch), replies, n))
    ensures Inv(env, StepAll(env, st, events), AdvancedBy(env.retryMax, prog, Ids(batch), replies, |events|))
  {
    var n := |events| - 1;
    AdvancedByStep(env.retryMax, prog, Ids(batch), replies, |events|);
    OneReply(env, StepAll(env, st, events[..n]), AdvancedBy(env.retryMax, prog, Ids(batch), replies, n),
             batch, events[n], StepAll(env, st, events),
             AdvancedBy(env.retryMax, prog, Ids(batch), replies, |events|));
  }

  lemma AdvancedByStep(retryMax: nat, prog: map<nat, Progress>, ids: set<nat>, replies: nat -> Reply, k: nat)
    ensures AdvancedBy(retryMax, prog, ids, replies, k) == if k == 0 then prog
            else Advanced(retryMax, AdvancedBy(retryMax, prog, ids, replies, k - 1), ids, OutcomeOf(replies(k - 1)))
  {
  }

  lemma OneReply(env: Env, st: State, prog: map<nat, Progress>, batch: seq<Job>, event: Event,
                 st': State, prog': map<nat, Progress>)
    requires Ticking(env.cron) && Inv(env, st, prog) && Distinct(batch) && Ids(batch) <= prog.Keys
    requires event.Called? && event.jobs == batch && event.outcome != Scheduled
    requires LastRows(LogRows(st), Ids(batch) - st.cache.Keys, event.answer)
    requires st' == Step(env, st, event) && prog' == Advanced(env.retryMax, prog, Ids(batch), event.outcome)
    ensures Inv(env, st', prog')
  {
    forall j | j in Ids(batch) ensures HasRow(LogRows(st), j) { TrackedHasRow(env, st, prog, j); }
    StepPreserves(env, st, prog, event);
  }

  function Replied(retryMax: nat, p: Progress, replies: nat -> Reply, k: nat): Progress {
    if k == 0 then p else Advance(retryMax, Replied(retryMax, p, replies, k - 1), OutcomeOf(replies(k - 1)))
  }

  function AdvancedBy(retryMax: nat, prog: map<nat, Progress>, ids: set<nat>, replies: nat -> Reply, k: nat)
    : map<nat, Progress>
  {
    map j | j in prog :: if j in ids then Replied(retryMax, prog[j], replies, k) else prog[j]
  }

  lemma {:induction false} RepliedIsAfterBatch(retryMax: nat, p: Progress, replies: nat -> Reply, from: nat, left: nat)
    ensures AfterBatch(retryMax, Replied(retryMax, p, replies, from), replies, from, left)
            == Replied(retryMax, p, replies, from + Attempts(replies, from, left))
    decreases left
  {
    if !Accepted(replies(from)) && left > 0 {
      RepliedIsAfterBatch(retryMax, p, replies, from + 1, left - 1);
    }
  }

  /**
   * One batch of distinct jobs that carry no counted failures: at most `retryMax + 1` attempts, and in
   * the node's cache and log each job ends exactly one version on, every other job untouched.
   */
  lemma BatchAdvancesOnce(env: Env, st: State, prog: map<nat, Progress>, batch: seq<Job>, replies: nat -> Reply,
                          events: seq<Event>)
    requires Ticking(env.cron) && Inv(env, st, prog) && Distinct(batch)
    requires Ids(batch) <= prog.Keys && forall j <- Ids(batch) :: prog[j].fails == 0
    requires |events| == Attempts(replies, 0, env.retryMax)
    requires Served(env, st, batch, replies, events)
    ensures |events| <= env.retryMax + 1
    ensures Inv(env, StepAll(env, st, events), NextVersion(prog, Ids(batch)))
  {
    BatchFollowsReplies(env, st, prog, batch, replies, events);
    AdvancedOnce(env.retryMax, prog, Ids(batch), replies);
  }

  function NextVersion(prog: map<nat, Progress>, ids: set<nat>): map<nat, Progress> {
    map j | j in prog :: if j in ids then Progress(prog[j].version + 1, 0) else prog[j]
  }

  lemma AdvancedOnce(retryMax: nat, prog: map<nat, Progress>, ids: set<nat>, replies: nat -> Reply)
    requires ids <= prog.Keys && forall j <- ids :: prog[j].fails == 0
    ensures AdvancedBy(retryMax, prog, ids, replies, Attempts(replies, 0, retryMax)) == NextVersion(prog, ids)
  {
    forall j | j in ids
      ensures Replied(retryMax, prog[j], replies, Attempts(replies, 0, retryMax)) == Progress(prog[j].version + 1, 0)
    {
      RepliedIsAfterBatch(retryMax, prog[j], replies, 0, retryMax);
      OneVersion(retryMax, prog[j], replies);
    }
  }
}
