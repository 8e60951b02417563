/** Asynchronous tasks and the subscribers told when they change (pkg/service/async_task/async_task.go). */
module AsyncTask {
  import opened Collections

  datatype TaskState = NotStarted | InProgress | Success | Fail

  datatype Task = Task(id: nat, requestId: string, state: TaskState, output: string)

  /** A subscriber is its task and its number within the task. */
  type Subscriber = (nat, nat)

  /** Subscribers ever added, removed on request, and invoked. */
  datatype Trace = Trace(added: set<Subscriber>, removed: set<Subscriber>, invoked: multiset<Subscriber>)

  /** `pending` are the notifications on their way to the listener; goroutines may deliver them in any order. */
  datatype State = State(tasks: map<nat, Task>, requestIds: map<string, nat>, subscribers: map<nat, set<nat>>,
                         subscriberIds: map<nat, nat>, pending: seq<Task>, listening: bool, trace: Trace)

  datatype Result<+T> = NotFound | Failed | Ok(value: T)

  /** What a caller waits on: the messages already in the channel, and the subscriber that fills it. */
  datatype Channel = NoChannel | Channel(messages: seq<Task>, subscriber: nat)

  const START := State(map[], map[], map[], map[], [], true, Trace({}, {}, multiset{}))

  predicate Terminal(task: Task) {
    task.state == Success || task.state == Fail
  }

  function Live(subscribers: map<nat, set<nat>>, t: nat): set<nat> {
    if t in subscribers then subscribers[t] else {}
  }

  function LastId(subscriberIds: map<nat, nat>, t: nat): nat {
    if t in subscriberIds then subscriberIds[t] else 0
  }

  // ---- operations ----

  function AddTask(st: State, id: nat, requestId: string): State {
    st.(tasks := st.tasks[id := Task(id, requestId, NotStarted, "")], requestIds := st.requestIds[requestId := id])
  }

  /** The stored task changes first; it is announced only if the repository took the change as well. */
  function Update(st: State, task: Task, stored: bool): State {
    st.(tasks := st.tasks[task.id := task], pending := if stored then st.pending + [task] else st.pending)
  }

  function UpdateById(st: State, id: nat, state: TaskState, stored: bool): State {
    if id in st.tasks then Update(st, st.tasks[id].(state := state), stored) else st
  }

  function UpdateByRequestId(st: State, requestId: string, state: TaskState, output: string, stored: bool): State {
    if requestId in st.requestIds && st.requestIds[requestId] in st.tasks
    then Update(st, st.tasks[st.requestIds[requestId]].(state := state, output := output), stored)
    else st
  }

  function Subscribe(st: State, t: nat): State {
    if t in st.tasks then
      var id := LastId(st.subscriberIds, t) + 1;
      st.(subscribers := st.subscribers[t := Live(st.subscribers, t) + {id}],
          subscriberIds := st.subscriberIds[t := id],
          trace := st.trace.(added := st.trace.added + {(t, id)}))
    else st
  }

  function Unsubscribe(st: State, t: nat, id: nat): State {
    if t in st.tasks && t in st.subscribers then
      st.(subscribers := st.subscribers[t := st.subscribers[t] - {id}],
          trace := st.trace.(removed := st.trace.removed + ({(t, id)} * st.trace.added)))
    else st
  }

  function Invocations(t: nat, ids: set<nat>): multiset<Subscriber> {
    multiset(set id <- ids :: (t, id))
  }

  /** One turn of the listener on notification `k`; a notification whose task is gone ends the loop for good. */
  function Deliver(st: State, k: nat): State
    requires k < |st.pending|
  {
    var n, rest := st.pending[k], st.pending[..k] + st.pending[k + 1..];
    if n.id !in st.tasks then st.(pending := rest, listening := false)
    else
      st.(tasks := if Terminal(n) then st.tasks - {n.id} else st.tasks,
          subscribers := st.subscribers - {n.id}, pending := rest,
          trace := st.trace.(invoked := st.trace.invoked + Invocations(n.id, Live(st.subscribers, n.id))))
  }

  datatype Event =
    | Added(id: nat, requestId: string)
    | Updated(id: nat, state: TaskState, stored: bool)
    | UpdatedByRequest(requestId: string, state: TaskState, output: string, stored: bool)
    | Subscribed(task: nat)
    | Unsubscribed(task: nat, id: nat)
    | Delivered(k: nat)

  predicate Enabled(st: State, e: Event) {
    e.Delivered? ==> st.listening && e.k < |st.pending|
  }

  function Step(st: State, e: Event): State
    requires Enabled(st, e)
  {
    match e
    case Added(id, requestId) => AddTask(st, id, requestId)
    case Updated(id, state, stored) => UpdateById(st, id, state, stored)
    case UpdatedByRequest(requestId, state, output, stored) => UpdateByRequestId(st, requestId, state, output, stored)
    case Subscribed(t) => Subscribe(st, t)
    case Unsubscribed(t, id) => Unsubscribe(st, t, id)
    case Delivered(k) => Deliver(st, k)
  }

  // ---- what every run keeps ----

  ghost predicate TasksOk(st: State) {
    && (forall t <- st.tasks :: st.tasks[t].id == t)
    && (forall t <- st.subscribers :: t in st.tasks)
  }

  /** A subscriber that is still to be told has been added, and neither removed nor told. */
  ghost predicate LiveOk(st: State) {
    forall t, id :: t in st.subscribers && id in st.subscribers[t] ==>
      (t, id) in st.trace.added && (t, id) !in st.trace.removed && (t, id) !in st.trace.invoked
  }

  /** Numbers were given out in order, and only given-out numbers occur. */
  ghost predicate NumbersOk(st: State) {
    && (forall s <- st.trace.added :: 1 <= s.1 <= LastId(st.subscriberIds, s.0))
    && st.trace.removed <= st.trace.added
    && (forall s <- st.trace.invoked :: s in st.trace.added)
  }

  ghost predicate ToldOnce(st: State) {
    forall s <- st.trace.invoked :: st.trace.invoked[s] == 1
  }

  ghost predicate Inv(st: State) {
    TasksOk(st) && LiveOk(st) && NumbersOk(st) && ToldOnce(st)
  }

  lemma DeliverKeeps(st: State, k: nat)
    requires Inv(st) && k < |st.pending|
    ensures Inv(Deliver(st, k))
  {
    var n := st.pending[k];
    if n.id in st.tasks {
      ToldKeeps(st, Deliver(st, k), n.id, Live(st.subscribers, n.id));
    }
  }

  lemma ToldKeeps(st: State, st': State, t: nat, ids: set<nat>)
    requires LiveOk(st) && NumbersOk(st) && ToldOnce(st) && ids == Live(st.subscribers, t)
    requires st'.subscribers == st.subscribers - {t} && st'.subscriberIds == st.subscriberIds
    requires st'.trace == st.trace.(invoked := st.trace.invoked + Invocations(t, ids))
    ensures LiveOk(st') && NumbersOk(st') && ToldOnce(st')
  {
    forall s | s in st'.trace.invoked ensures s in st.trace.added && st'.trace.invoked[s] == 1 {
      InvokedOnce(t, ids, s);
    }
    forall r, id | r in st'.subscribers && id in st'.subscribers[r] ensures (r, id) !in st'.trace.invoked {
      InvokedOnce(t, ids, (r, id));
      assert id in st.subscribers[r];
    }
  }

  lemma InvokedOnce(t: nat, ids: set<nat>, s: Subscriber)
    ensures Invocations(t, ids)[s] == if s.0 == t && s.1 in ids then 1 else 0
  {
    var told := set id <- ids :: (t, id);
    assert s in told <==> s.0 == t && s.1 in ids;
  }

  lemma StepKeeps(st: State, e: Event)
    requires Inv(st) && Enabled(st, e)
    ensures Inv(Step(st, e))
  {
    match e
    case Delivered(k) => DeliverKeeps(st, k);
    case Subscribed(t) => SubscribeKeeps(st, t);
    case Unsubscribed(t, id) => UnsubscribeKeeps(st, t, id);
    case _ =>
  }

  lemma UnsubscribeKeeps(st: State, t: nat, id: nat)
    requires Inv(st)
    ensures Inv(Unsubscribe(st, t, id))
  {
  }

  lemma SubscribeKeeps(st: State, t: nat)
    requires Inv(st)
    ensures Inv(Subscribe(st, t))
    ensures t in st.tasks ==>
              var s := (t, LastId(st.subscriberIds, t) + 1);
              s !in st.trace.added && forall r <- st.trace.added :: r.0 == t ==> r.1 < s.1
  {
  }

  ghost predicate IsRun(states: seq<State>, events: seq<Event>) {
    && |states| == |events| + 1 && states[0] == START
    && forall i: nat {:trigger At(i)} :: At(i) && i < |events| ==>
         Enabled(states[i], events[i]) && states[i + 1] == Step(states[i], events[i])
  }

  lemma {:induction false} EveryStateKeeps(states: seq<State>, events: seq<Event>, i: nat)
    requires IsRun(states, events) && i < |states|
    ensures Inv(states[i])
    decreases i
  {
    if i > 0 {
      EveryStateKeeps(states, events, i - 1);
      assert At(i - 1);
      StepKeeps(states[i - 1], events[i - 1]);
    }
  }

  predicate Later(a: State, b: State) {
    && a.trace.added <= b.trace.added && a.trace.removed <= b.trace.removed
    && (forall t <- a.subscriberIds :: a.subscriberIds[t] <= LastId(b.subscriberIds, t))
  }

  lemma {:induction false} RunGoesForward(states: seq<State>, events: seq<Event>, i: nat, j: nat)
    requires IsRun(states, events) && i <= j < |states|
    ensures Later(states[i], states[j])
    decreases j
  {
    if i < j {
      RunGoesForward(states, events, i, j - 1);
      assert At(j - 1);
      StepGoesForward(states[j - 1], events[j - 1]);
      LaterTransitive(states[i], states[j - 1], states[j]);
    }
  }

  lemma StepGoesForward(st: State, e: Event)
    requires Enabled(st, e)
    ensures Later(st, Step(st, e))
  {
  }

  lemma LaterTransitive(a: State, b: State, c: State)
    requires Later(a, b) && Later(b, c)
    ensures Later(a, c)
  {
  }

  /** The numbers a task gives its subscribers strictly increase, across its whole life and after it. */
  lemma NumbersIncrease(states: seq<State>, events: seq<Event>, i: nat, j: nat, t: nat)
    requires IsRun(states, events) && i < j < |events| && events[i] == events[j] == Subscribed(t)
    requires t in states[i].tasks && t in states[j].tasks
    ensures LastId(states[i + 1].subscriberIds, t) < LastId(states[j + 1].subscriberIds, t)
    ensures (t, LastId(states[j + 1].subscriberIds, t)) !in states[j].trace.added
  {
    assert At(i) && At(j);
    RunGoesForward(states, events, i + 1, j);
    EveryStateKeeps(states, events, j);
  }

  lemma ToldAtMostOnce(states: seq<State>, events: seq<Event>, i: nat, s: Subscriber)
    requires IsRun(states, events) && i < |states|
    ensures states[i].trace.invoked[s] <= 1
    ensures states[i].trace.invoked[s] == 1 ==> s in states[i].trace.added
  {
    EveryStateKeeps(states, events, i);
  }

  /** A removed subscriber is never told from then on. */
  lemma {:induction false} NeverToldAfterRemoval(states: seq<State>, events: seq<Event>, i: nat, j: nat, s: Subscriber)
    requires IsRun(states, events) && i <= j < |states| && s in states[i].trace.removed
    ensures states[j].trace.invoked[s] == states[i].trace.invoked[s]
    decreases j
  {
    if i < j {
      NeverToldAfterRemoval(states, events, i, j - 1, s);
      RunGoesForward(states, events, i, j - 1);
      NotToldNext(states, events, j - 1, s);
    }
  }

  lemma NotToldNext(states: seq<State>, events: seq<Event>, i: nat, s: Subscriber)
    requires IsRun(states, events) && i < |events| && s in states[i].trace.removed
    ensures states[i + 1].trace.invoked[s] == states[i].trace.invoked[s]
  {
    EveryStateKeeps(states, events, i);
    assert At(i);
    OnlyLiveTold(states[i], events[i], s);
  }

  lemma OnlyLiveTold(st: State, e: Event, s: Subscriber)
    requires Inv(st) && Enabled(st, e) && s in st.trace.removed
    ensures Step(st, e).trace.invoked[s] == st.trace.invoked[s]
  {
    if e.Delivered? && st.pending[e.k].id in st.tasks {
      var t := st.pending[e.k].id;
      InvokedOnce(t, Live(st.subscribers, t), s);
    }
  }

  /**
   * Whoever is told in a turn of the listener has never been told before, so the one message its
   * channel has room for always fits and the turn cannot block.
   */
  lemma SendNeverBlocks(states: seq<State>, events: seq<Event>, i: nat, id: nat)
    requires IsRun(states, events) && i < |events| && events[i].Delivered? && events[i].k < |states[i].pending|
    requires var t := states[i].pending[events[i].k].id; t in states[i].tasks && id in Live(states[i].subscribers, t)
    ensures var s := (states[i].pending[events[i].k].id, id);
            states[i].trace.invoked[s] == 0 && states[i + 1].trace.invoked[s] == 1
  {
    EveryStateKeeps(states, events, i);
    assert At(i);
    var t := states[i].pending[events[i].k].id;
    InvokedOnce(t, Live(states[i].subscribers, t), (t, id));
  }

  // ---- nobody is forgotten ----

  /** Every subscriber ever added was removed, was told, or is still to be told. */
  ghost predicate NoneLost(st: State) {
    forall s <- st.trace.added ::
      s in st.trace.removed || s in st.trace.invoked || s.1 in Live(st.subscribers, s.0)
  }

  lemma NoneLostNext(st: State, e: Event)
    requires Inv(st) && NoneLost(st) && Enabled(st, e)
    ensures NoneLost(Step(st, e))
  {
    var st' := Step(st, e);
    forall s | s in st'.trace.added
      ensures s in st'.trace.removed || s in st'.trace.invoked || s.1 in Live(st'.subscribers, s.0)
    {
      if e.Delivered? && st.pending[e.k].id in st.tasks {
        InvokedOnce(st.pending[e.k].id, Live(st.subscribers, st.pending[e.k].id), s);
      }
    }
  }

  lemma {:induction false} EverySubscriberAccounted(states: seq<State>, events: seq<Event>, i: nat)
    requires IsRun(states, events) && i < |states|
    ensures NoneLost(states[i])
    decreases i
  {
    if i > 0 {
      EverySubscriberAccounted(states, events, i - 1);
      EveryStateKeeps(states, events, i - 1);
      assert At(i - 1);
      NoneLostNext(states[i - 1], events[i - 1]);
    }
  }

  predicate Delivers(st: State, e: Event, t: nat) {
    e.Delivered? && e.k < |st.pending| && st.pending[e.k].id == t
  }

  ghost predicate Removed(events: seq<Event>, from: nat, until: nat, t: nat, id: nat)
    requires until <= |events|
  {
    exists m {:trigger events[m]} :: from <= m < until && events[m] == Unsubscribed(t, id)
  }

  /** A known task has given out the number `id`, nobody was told under it, and it is live as said. */
  ghost predicate Awaiting(st: State, t: nat, id: nat, live: bool) {
    t in st.tasks && (t, id) in st.trace.added && st.trace.invoked[(t, id)] == 0
    && (id in Live(st.subscribers, t) <==> live)
  }

  lemma AwaitingNext(st: State, e: Event, t: nat, id: nat, live: bool)
    requires Inv(st) && Enabled(st, e) && Awaiting(st, t, id, live) && !Delivers(st, e, t)
    ensures Awaiting(Step(st, e), t, id, live && e != Unsubscribed(t, id))
  {
    if e.Delivered? && st.pending[e.k].id in st.tasks {
      InvokedOnce(st.pending[e.k].id, Live(st.subscribers, st.pending[e.k].id), (t, id));
    }
  }

  lemma {:induction false} AwaitingSince(states: seq<State>, events: seq<Event>, i: nat, j: nat, t: nat, id: nat)
    requires IsRun(states, events) && i < j < |states| && Awaiting(states[i + 1], t, id, true)
    requires forall m {:trigger events[m]} :: i < m < j ==> !Delivers(states[m], events[m], t)
    ensures Awaiting(states[j], t, id, !Removed(events, i + 1, j, t, id))
    decreases j
  {
    if j > i + 1 {
      AwaitingSince(states, events, i, j - 1, t, id);
      EveryStateKeeps(states, events, j - 1);
      assert At(j - 1);
      AwaitingNext(states[j - 1], events[j - 1], t, id, !Removed(events, i + 1, j - 1, t, id));
      assert Removed(events, i + 1, j, t, id) <==>
          Removed(events, i + 1, j - 1, t, id) || events[j - 1] == Unsubscribed(t, id);
    }
  }

  lemma SubscribedAwaits(st: State, t: nat)
    requires Inv(st) && t in st.tasks
    ensures Awaiting(Subscribe(st, t), t, LastId(st.subscriberIds, t) + 1, true)
  {
  }

  /**
   * The first notification of a task after someone subscribed to it tells them, exactly once, unless
   * they were removed in between; then it does not.
   */
  lemma FirstNotificationTells(states: seq<State>, events: seq<Event>, i: nat, j: nat, t: nat)
    requires IsRun(states, events) && i < j < |events| && events[i] == Subscribed(t) && t in states[i].tasks
    requires Delivers(states[j], events[j], t)
    requires forall m {:trigger events[m]} :: i < m < j ==> !Delivers(states[m], events[m], t)
    ensures var id := LastId(states[i].subscriberIds, t) + 1;
            && states[j].trace.invoked[(t, id)] == 0
            && states[j + 1].trace.invoked[(t, id)] == if Removed(events, i + 1, j, t, id) then 0 else 1
  {
    var id := LastId(states[i].subscriberIds, t) + 1;
    EveryStateKeeps(states, events, i);
    assert At(i) && At(j);
    SubscribedAwaits(states[i], t);
    AwaitingSince(states, events, i, j, t, id);
    InvokedOnce(t, Live(states[j].subscribers, t), (t, id));
  }

  // ---- tasks and their notifications ----

  /** The task an event writes, if it writes one. */
  function Target(st: State, e: Event): Result<nat> {
    match e
    case Added(id, _) => Ok(id)
    case Updated(id, _, _) => if id in st.tasks then Ok(id) else NotFound
    case UpdatedByRequest(requestId, _, _, _) =>
      if requestId in st.requestIds && st.requestIds[requestId] in st.tasks then Ok(st.requestIds[requestId])
      else NotFound
    case _ => NotFound
  }

  /** What a task is after being written: new, or with another state, and by request with another output. */
  function Rewritten(st: State, e: Event, t: nat): Task
    requires Target(st, e) == Ok(t)
  {
    match e
    case Added(_, requestId) => Task(t, requestId, NotStarted, "")
    case Updated(_, state, _) => Task(t, st.tasks[t].requestId, state, st.tasks[t].output)
    case UpdatedByRequest(_, state, output, _) => Task(t, st.tasks[t].requestId, state, output)
  }

  lemma StepWrites(st: State, e: Event, t: nat)
    requires Inv(st) && Enabled(st, e)
    ensures Target(st, e) == Ok(t) ==> t in Step(st, e).tasks && Step(st, e).tasks[t] == Rewritten(st, e, t)
    ensures Target(st, e) != Ok(t) && t in Step(st, e).tasks ==> t in st.tasks && Step(st, e).tasks[t] == st.tasks[t]
  {
  }

  /** As long as a task is kept, it is what the last event that wrote it made of it. */
  lemma {:induction false} TaskShowsLastWrite(states: seq<State>, events: seq<Event>, i: nat, j: nat, t: nat)
    requires IsRun(states, events) && i < j < |states| && Target(states[i], events[i]) == Ok(t)
    requires forall m {:trigger events[m]} :: i < m < j ==> Target(states[m], events[m]) != Ok(t)
    requires t in states[j].tasks
    ensures states[j].tasks[t] == Rewritten(states[i], events[i], t)
    decreases j
  {
    EveryStateKeeps(states, events, j - 1);
    assert At(j - 1);
    StepWrites(states[j - 1], events[j - 1], t);
    if j > i + 1 {
      TaskShowsLastWrite(states, events, i, j - 1, t);
    }
  }

  /** The notification an event gives rise to: of an update the repository took. */
  function NewsOf(st: State, e: Event): seq<Task> {
    if (e.Updated? || e.UpdatedByRequest?) && e.stored && Target(st, e).Ok?
    then [Rewritten(st, e, Target(st, e).value)] else []
  }

  function TakenBy(st: State, e: Event): seq<Task> {
    if e.Delivered? && e.k < |st.pending| then [st.pending[e.k]] else []
  }

  /** How often `n` is in a list. */
  function Count(list: seq<Task>, n: Task): nat {
    multiset(list)[n]
  }

  lemma PendingNext(st: State, e: Event, n: Task)
    requires Inv(st) && Enabled(st, e)
    ensures Count(Step(st, e).pending, n) + Count(TakenBy(st, e), n) == Count(st.pending, n) + Count(NewsOf(st, e), n)
  {
    if e.Delivered? {
      DeliveryTakes(st, e.k);
      CountWithout(st.pending, e.k, n, Step(st, e).pending, NewsOf(st, e));
    } else {
      UpdateAnnounces(st, e);
      CountBoth(st.pending, NewsOf(st, e), n, Step(st, e).pending, TakenBy(st, e));
    }
  }

  lemma DeliveryTakes(st: State, k: nat)
    requires k < |st.pending|
    ensures Deliver(st, k).pending == st.pending[..k] + st.pending[k + 1..]
  {
  }

  lemma UpdateAnnounces(st: State, e: Event)
    requires Inv(st) && !e.Delivered?
    ensures Step(st, e).pending == st.pending + NewsOf(st, e)
  {
  }

  lemma CountWithout(list: seq<Task>, k: nat, n: Task, left: seq<Task>, none: seq<Task>)
    requires k < |list| && left == list[..k] + list[k + 1..] && none == []
    ensures Count(left, n) + Count([list[k]], n) == Count(list, n) + Count(none, n)
  {
    assert list == list[..k] + [list[k]] + list[k + 1..];
  }

  lemma CountBoth(a: seq<Task>, b: seq<Task>, n: Task, both: seq<Task>, none: seq<Task>)
    requires both == a + b && none == []
    ensures Count(both, n) + Count(none, n) == Count(a, n) + Count(b, n)
  {
  }

  lemma PendingInRun(states: seq<State>, events: seq<Event>, k: nat, next: State, n: Task)
    requires IsRun(states, events) && k < |events| && next == states[k + 1]
    ensures Count(next.pending, n) + Count(TakenBy(states[k], events[k]), n)
            == Count(states[k].pending, n) + Count(NewsOf(states[k], events[k]), n)
  {
    EveryStateKeeps(states, events, k);
    assert At(k);
    PendingNext(states[k], events[k], n);
  }

  /** How often each event of a run announces `n`. */
  function Announcements(states: seq<State>, events: seq<Event>, n: Task): seq<nat>
    requires |events| <= |states|
  {
    seq(|events|, k requires 0 <= k < |events| => Count(NewsOf(states[k], events[k]), n))
  }

  /** How often each event of a run delivers `n`. */
  function Deliveries(states: seq<State>, events: seq<Event>, n: Task): seq<nat>
    requires |events| <= |states|
  {
    seq(|events|, k requires 0 <= k < |events| => Count(TakenBy(states[k], events[k]), n))
  }

  function OnTheWay(states: seq<State>, n: Task): seq<nat> {
    seq(|states|, k requires 0 <= k < |states| => Count(states[k].pending, n))
  }

  function Total(numbers: seq<nat>, i: nat): nat
    requires i <= |numbers|
    decreases i
  {
    if i == 0 then 0 else Total(numbers, i - 1) + numbers[i - 1]
  }

  ghost predicate Balanced(held: seq<nat>, gained: seq<nat>, lost: seq<nat>) {
    && |held| == |gained| + 1 == |lost| + 1
    && forall k {:trigger gained[k]} :: 0 <= k < |gained| ==> held[k + 1] + lost[k] == held[k] + gained[k]
  }

  lemma {:induction false} Ledger(held: seq<nat>, gained: seq<nat>, lost: seq<nat>, i: nat)
    requires held != [] && held[0] == 0 && i < |held|
    requires Balanced(held, gained, lost)
    ensures held[i] + Total(lost, i) == Total(gained, i)
    decreases i
  {
    if i > 0 {
      Ledger(held, gained, lost, i - 1);
      assert held[i] + lost[i - 1] == held[i - 1] + gained[i - 1];
    }
  }

  /** Every notification on its way is of a stored update, and each is delivered once or still on its way. */
  lemma NotificationsConserved(states: seq<State>, events: seq<Event>, i: nat, n: Task)
    requires IsRun(states, events) && i < |states|
    ensures Count(states[i].pending, n) + Total(Deliveries(states, events, n), i)
            == Total(Announcements(states, events, n), i)
  {
    RunBalances(states, events, n);
    NothingYet(n);
    Ledger(OnTheWay(states, n), Announcements(states, events, n), Deliveries(states, events, n), i);
  }

  lemma RunBalances(states: seq<State>, events: seq<Event>, n: Task)
    requires IsRun(states, events)
    ensures Balanced(OnTheWay(states, n), Announcements(states, events, n), Deliveries(states, events, n))
  {
    var held, gained, lost := OnTheWay(states, n), Announcements(states, events, n), Deliveries(states, events, n);
    forall k {:trigger gained[k]} | 0 <= k < |gained| ensures held[k + 1] + lost[k] == held[k] + gained[k] {
      PendingInRun(states, events, k, states[k + 1], n);
    }
  }

  lemma NothingYet(n: Task)
    ensures Count(START.pending, n) == 0
  {
  }

  // ---- the life of the listener ----

  ghost predicate PendingKnown(st: State) {
    forall n <- st.pending :: n.id in st.tasks
  }

  /** Two notifications of one task are on their way and one of them announces its end. */
  predicate Clash(pending: seq<Task>) {
    exists i, j :: 0 <= i < |pending| && 0 <= j < |pending| && i != j
                   && pending[i].id == pending[j].id && Terminal(pending[i])
  }

  function DeliverAll(st: State, picks: seq<nat>): State
    decreases |picks|
  {
    if picks == [] || !st.listening || picks[0] >= |st.pending| then st
    else DeliverAll(Deliver(st, picks[0]), picks[1..])
  }

  lemma RestOfPending(pending: seq<Task>, k: nat)
    requires k < |pending| && !Clash(pending)
    ensures !Clash(pending[..k] + pending[k + 1..])
    ensures Terminal(pending[k]) ==> forall n <- pending[..k] + pending[k + 1..] :: n.id != pending[k].id
  {
    var rest := pending[..k] + pending[k + 1..];
    forall i | 0 <= i < |rest| ensures rest[i] == pending[if i < k then i else i + 1] {
    }
    forall i, j | 0 <= i < |rest| && 0 <= j < |rest| && i != j && rest[i].id == rest[j].id
      ensures !Terminal(rest[i])
    {
      var x, y := if i < k then i else i + 1, if j < k then j else j + 1;
      assert pending[x].id == pending[y].id;
    }
  }

  lemma {:induction false} NoClashSurvives(st: State, picks: seq<nat>)
    requires PendingKnown(st) && st.listening && !Clash(st.pending)
    ensures DeliverAll(st, picks).listening
    decreases |picks|
  {
    if picks != [] && picks[0] < |st.pending| {
      var k := picks[0];
      RestOfPending(st.pending, k);
      assert st.pending[k] in st.pending;
      forall n | n in Deliver(st, k).pending ensures n.id in Deliver(st, k).tasks {
        assert n in st.pending;
      }
      NoClashSurvives(Deliver(st, k), picks[1..]);
    }
  }

  /**
   * The listener survives every order of delivery exactly when no task has its end announced while
   * another notification of it is on its way.
   */
  lemma ListenerSurvivesIff(st: State)
    requires PendingKnown(st) && st.listening
    ensures (forall picks :: DeliverAll(st, picks).listening) <==> !Clash(st.pending)
  {
    if Clash(st.pending) {
      var i, j :| 0 <= i < |st.pending| && 0 <= j < |st.pending| && i != j
                  && st.pending[i].id == st.pending[j].id && Terminal(st.pending[i]);
      ClashKills(st, i, j);
    } else {
      forall picks ensures DeliverAll(st, picks).listening {
        NoClashSurvives(st, picks);
      }
    }
  }

  lemma ClashKills(st: State, i: nat, j: nat)
    requires PendingKnown(st) && st.listening && i < |st.pending| && j < |st.pending| && i != j
    requires st.pending[i].id == st.pending[j].id && Terminal(st.pending[i])
    ensures !DeliverAll(st, [i, if j < i then j else j - 1]).listening
  {
    var second := if j < i then j else j - 1;
    var after := Deliver(st, i);
    assert st.pending[i] in st.pending;
    assert after.pending[second] == st.pending[j] && after.listening;
    var picks := [i, second];
    assert DeliverAll(st, picks) == DeliverAll(after, picks[1..]);
    assert picks[1..] == [second];
    assert DeliverAll(after, [second]) == DeliverAll(Deliver(after, second), [second][1..]);
    assert !Deliver(after, second).listening;
  }

  const QUICK_TASK :=
    [Added(1, "r"), UpdatedByRequest("r", InProgress, "", true), UpdatedByRequest("r", Success, "", true)]

  /** Such a run exists: a task is started and ended before the listener's first turn, which sees its end first. */
  lemma QuickTaskEndsListener() returns (states: seq<State>)
    ensures IsRun(states, QUICK_TASK)
    ensures PendingKnown(states[3]) && states[3].listening && Clash(states[3].pending)
    ensures !DeliverAll(states[3], [1, 0]).listening
  {
    var s1 := Step(START, QUICK_TASK[0]);
    var s2 := Step(s1, QUICK_TASK[1]);
    var s3 := Step(s2, QUICK_TASK[2]);
    states := [START, s1, s2, s3];
    assert s3.pending == [Task(1, "r", InProgress, ""), Task(1, "r", Success, "")];
    ClashKills(s3, 1, 0);
  }

  /** Announcing at most one change of a task at a time keeps every pending notification deliverable. */
  ghost predicate Awaited(st: State, e: Event) {
    match e
    case Updated(id, _, _) => forall n <- st.pending :: n.id != id
    case UpdatedByRequest(requestId, _, _, _) =>
      requestId in st.requestIds ==> forall n <- st.pending :: n.id != st.requestIds[requestId]
    case _ => true
  }

  lemma {:induction false} AwaitedRunsKeepListening(states: seq<State>, events: seq<Event>, i: nat)
    requires IsRun(states, events) && i < |states|
    requires forall k :: 0 <= k < |events| ==> Awaited(states[k], events[k])
    ensures states[i].listening && PendingKnown(states[i]) && OnePerTask(states[i].pending)
    decreases i
  {
    if i > 0 {
      AwaitedRunsKeepListening(states, events, i - 1);
      EveryStateKeeps(states, events, i - 1);
      assert At(i - 1);
      AwaitedStep(states[i - 1], events[i - 1]);
    }
  }

  ghost predicate OnePerTask(pending: seq<Task>) {
    forall i, j :: 0 <= i < j < |pending| ==> pending[i].id != pending[j].id
  }

  lemma AwaitedStep(st: State, e: Event)
    requires Inv(st) && Enabled(st, e) && Awaited(st, e)
    requires st.listening && PendingKnown(st) && OnePerTask(st.pending)
    ensures Step(st, e).listening && PendingKnown(Step(st, e)) && OnePerTask(Step(st, e).pending)
  {
    if e.Delivered? {
      assert st.pending[e.k] in st.pending;
    }
  }

  class AsyncTaskService {
    var tasks: map<nat, Task>
    var requestIds: map<string, nat>
    var subscribers: map<nat, set<nat>>
    var subscriberIds: map<nat, nat>
    ghost var pending: seq<Task>
    ghost var trace: Trace

    constructor ()
      ensures View() == START
    {
      tasks, requestIds, subscribers, subscriberIds := map[], map[], map[], map[];
      pending, trace := [], Trace({}, {}, multiset{});
    }

    /** The listener's own loop state is not a field; it is `true` while `Notified` may be called. */
    ghost function View(): State
      reads this
    {
      State(tasks, requestIds, subscribers, subscriberIds, pending, true, trace)
    }

    /** `inserted` is the id given by the repository, if the insert succeeded. */
    method AddTasks(requestId: string, inserted: Result<nat>) returns (r: Result<nat>)
      modifies this
      ensures r == inserted
      ensures View() == if inserted.Ok? then AddTask(old(View()), inserted.value, requestId) else old(View())
    {
      if !inserted.Ok? { return inserted; }
      tasks := tasks[inserted.value := Task(inserted.value, requestId, NotStarted, "")];
      requestIds := requestIds[requestId := inserted.value];
      return inserted;
    }

    method UpdateTasksById(taskId: nat, state: TaskState, stored: bool) returns (r: Result<()>)
      requires TasksOk(View())
      modifies this
      ensures View() == UpdateById(old(View()), taskId, state, stored)
      ensures r == if taskId !in old(tasks) then NotFound else if stored then Ok(()) else Failed
    {
      if taskId !in tasks { return NotFound; }
      var task := tasks[taskId].(state := state);
      tasks := tasks[taskId := task];
      if !stored { return Failed; }
      pending := pending + [task];
      return Ok(());
    }

    method UpdateTasksByRequestId(requestId: string, state: TaskState, output: string, stored: bool)
      returns (r: Result<()>)
      modifies this
      ensures View() == UpdateByRequestId(old(View()), requestId, state, output, stored)
      ensures r.NotFound? <==> requestId !in old(requestIds) || old(requestIds)[requestId] !in old(tasks)
      ensures !r.NotFound? ==> r == if stored then Ok(()) else Failed
    {
      if requestId !in requestIds { return NotFound; }
      if requestIds[requestId] !in tasks { return NotFound; }
      var task := tasks[requestIds[requestId]].(state := state, output := output);
      tasks := tasks[task.id := task];
      if !stored { return Failed; }
      pending := pending + [task];
      return Ok(());
    }

    method AddSubscriber(taskId: nat) returns (r: Result<nat>)
      requires TasksOk(View())
      modifies this
      ensures View() == Subscribe(old(View()), taskId)
      ensures r == if taskId in old(tasks) then Ok(LastId(old(subscriberIds), taskId) + 1) else NotFound
    {
      if taskId !in tasks { return NotFound; }
      var maxId := if taskId in subscriberIds then subscriberIds[taskId] else 0;
      var subId := maxId + 1;
      var known := {};
      if tasks[taskId].id in subscribers {
        known := subscribers[tasks[taskId].id];
      }
      subscribers := subscribers[taskId := known + {subId}];
      subscriberIds := subscriberIds[taskId := subId];
      trace := trace.(added := trace.added + {(taskId, subId)});
      return Ok(subId);
    }

    method DeleteSubscriber(taskId: nat, subscriberId: nat) returns (r: Result<()>)
      requires TasksOk(View())
      modifies this
      ensures View() == Unsubscribe(old(View()), taskId, subscriberId)
      ensures r.Ok? <==> taskId in old(tasks) && taskId in old(subscribers)
    {
      if taskId !in tasks { return NotFound; }
      if tasks[taskId].id !in subscribers { return NotFound; }
      subscribers := subscribers[taskId := subscribers[tasks[taskId].id] - {subscriberId}];
      trace := trace.(removed := trace.removed + ({(taskId, subscriberId)} * trace.added));
      return Ok(());
    }

    /**
     * `row` is the stored task. The channel has room for one message: it is filled at once for a
     * task that succeeded, left empty for a subscriber, and absent for a task that failed.
     */
    method GetTaskBlocking(taskId: nat, row: Result<Task>) returns (r: Result<Channel>)
      requires TasksOk(View())
      modifies this
      ensures View() == if row.Ok? && !Terminal(row.value) then Subscribe(old(View()), taskId) else old(View())
      ensures r == if !row.Ok? then Failed
                   else if row.value.state == Success then Ok(Channel([row.value], 0))
                   else if row.value.state == Fail then Ok(NoChannel)
                   else if taskId in old(tasks) then Ok(Channel([], LastId(old(subscriberIds), taskId) + 1))
                   else NotFound
    {
      if !row.Ok? { return Failed; }
      var taskCh: seq<Task> := [];
      if row.value.state == Success {
        taskCh := [row.value];
        return Ok(Channel(taskCh, 0));
      }
      if row.value.state != InProgress && row.value.state != NotStarted { return Ok(NoChannel); }
      var subs := AddSubscriber(taskId);
      if !subs.Ok? { return NotFound; }
      return Ok(Channel(taskCh, subs.value));
    }

    /** One turn of the listener; `told` are the subscribers called, and the loop goes on or ends. */
    method Notified(ghost k: nat, n: Task) returns (goesOn: bool, told: seq<nat>)
      requires TasksOk(View()) && k < |pending| && n == pending[k]
      modifies this
      ensures View().(listening := goesOn) == Deliver(old(View()), k)
      ensures multiset(told) == if goesOn then multiset(Live(old(subscribers), n.id)) else multiset{}
    {
      pending := pending[..k] + pending[k + 1..];
      if n.id !in tasks { return false, []; }
      var left, t := {}, tasks[n.id].id;
      if t in subscribers {
        left := subscribers[t];
      }
      ghost var all := left;
      told := [];
      while left != {}
        invariant left <= all && multiset(told) == multiset(all - left)
        decreases left
      {
        var id :| id in left;
        told, left := told + [id], left - {id};
        assert all - left == all - (left + {id}) + {id};
      }
      trace := trace.(invoked := trace.invoked + Invocations(n.id, all));
      if n.state == Fail || n.state == Success {
        tasks := tasks - {t};
      }
      subscribers := subscribers - {t};
      goesOn := true;
    }
  }
}
