/** Device login as a protocol: `begin` and any number of concurrent, cancellable `status` calls,
    interleaved at their lock sections and network calls. */
module DeviceLogin {
  import opened Wrappers
  import opened DeviceFlows

  /** What a `status` call that polls is doing: waiting for the login server, or holding the account
      it created. */
  datatype Phase = Polling | Created(account: string)

  datatype Task = Task(flow: string, phase: Phase)

  /** What happened to a flow, whether or not the store still holds it: when it began, how many
      nanoseconds lie between polls, how many polls it started, when it last started or finished one, and the accounts it created. */
  datatype Book = Book(began: int, gap: int, starts: nat, spoken: Option<int>, accounts: seq<string>)

  datatype System = System(flows: Flows, tasks: map<nat, Task>, books: map<string, Book>, clock: int)

  datatype Event =
    | Begin(id: string, owner: string, name: string, interval: nat, now: int)
    | Enter(task: nat, id: string, owner: string, t1: int, t2: int, t3: int)
    | AnswerPending(task: nat, now: int)
    | AnswerFailed(task: nat, error: string, now: int)
    | CreateAccount(task: nat, account: string, now: int)
    | StoreAccount(task: nat, now: int)
    | Cancel(task: nat, now: int)

  /** The first section of `status` reads the clock three times; the other events once. */
  predicate OneInstant(e: Event) {
    e.Enter? ==> e.t1 == e.t2 == e.t3
  }

  /** Ids are fresh, instants never go back, and a task acts only in its phase.  `begin` reads the
      clock before it takes the lock, so its instant can be an older one. */
  predicate Enabled(s: System, e: Event) {
    match e
    case Begin(id, _, _, _, _) => id !in s.books
    case Enter(task, _, _, t1, t2, t3) => task !in s.tasks && s.clock <= t1 <= t2 <= t3
    case AnswerPending(task, now) => task in s.tasks && s.tasks[task].phase == Polling && s.clock <= now
    case AnswerFailed(task, _, now) => task in s.tasks && s.tasks[task].phase == Polling && s.clock <= now
    case CreateAccount(task, _, now) => task in s.tasks && s.tasks[task].phase == Polling && s.clock <= now
    case StoreAccount(task, now) => task in s.tasks && s.tasks[task].phase.Created? && s.clock <= now
    case Cancel(task, now) => task in s.tasks && s.clock <= now
  }

  function CountStart(b: Book, t3: int): Book {
    b.(starts := b.starts + 1, spoken := Some(t3))
  }

  function Note(books: map<string, Book>, id: string, f: Book -> Book): map<string, Book> {
    if id in books then books[id := f(books[id])] else books
  }

  function Step(s: System, e: Event): System
    requires Enabled(s, e)
  {
    match e
    case Begin(id, owner, name, interval, now) =>
      var f := NewFlow(owner, name, interval, now);
      s.(flows := Pruned(s.flows, now)[id := f], books := s.books[id := Book(now, f.interval * SECOND, 0, None, [])],
         clock := if now < s.clock then s.clock else now)
    case Enter(task, id, owner, t1, t2, t3) =>
      var (flows, r) := EnterStatus(s.flows, id, owner, t1, t2, t3);
      if r.PollFrom?
      then System(flows, s.tasks[task := Task(id, Polling)], Note(s.books, id, b => CountStart(b, t3)), t3)
      else s.(flows := flows, clock := t3)
    case AnswerPending(task, now) =>
      var id := s.tasks[task].flow;
      System(Update(s.flows, id, f => PendingFlow(f, now)), s.tasks - {task}, Note(s.books, id, (b: Book) => b.(spoken := Some(now))), now)
    case AnswerFailed(task, error, now) =>
      s.(flows := Update(s.flows, s.tasks[task].flow, f => FailedFlow(f, error)), tasks := s.tasks - {task}, clock := now)
    case CreateAccount(task, account, now) =>
      var id := s.tasks[task].flow;
      s.(tasks := s.tasks[task := Task(id, Created(account))],
         books := Note(s.books, id, (b: Book) => b.(accounts := b.accounts + [account])), clock := now)
    case StoreAccount(task, now) =>
      var account := s.tasks[task].phase.account;
      s.(flows := Update(s.flows, s.tasks[task].flow, f => SucceededFlow(f, account)), tasks := s.tasks - {task}, clock := now)
    case Cancel(task, now) =>
      s.(tasks := s.tasks - {task}, clock := now)
  }

  // ------------------------------------------------------------------ invariants

  /** A stored flow against its book. */
  ghost predicate FlowOk(f: Flow, b: Book, clock: int) {
    && 1 <= f.interval <= 60
    && b.gap == f.interval * SECOND
    && f.expiresAt == b.began + FLOW_TTL
    && b.began <= clock
    && b.began + b.starts * b.gap <= f.nextPollAt
    && (b.spoken.Some? ==> (f.status.Pending? ==> b.spoken.value + b.gap <= f.nextPollAt) && b.spoken.value <= clock)
    && (b.starts > 0 ==> b.spoken.Some? && f.nextPollAt <= clock + b.gap)
    && (b.starts == 0 ==> f.nextPollAt == b.began)
    && (f.status.Expired? ==> f.expiresAt <= clock)
    && (f.status.Succeeded? <==> f.account.Some?)
    && (f.polling ==> b.starts > 0 && (f.status.Pending? || f.status.Expired?))
    && (if f.status.Succeeded? then b.accounts == [f.account.value] else !f.polling ==> b.accounts == [])
  }

  /** How many polls a book may show: `slack` is 1 when every section has one instant, else 2. */
  ghost predicate StartsOk(b: Book, slack: nat) {
    && 1 * SECOND <= b.gap <= 60 * SECOND
    && |b.accounts| <= 1
    && (b.starts >= slack ==> (b.starts - slack) * b.gap < FLOW_TTL)
  }

  ghost predicate TaskOk(s: System, t: Task) {
    && t.flow in s.books
    && (t.flow in s.flows ==> s.flows[t.flow].polling)
    && (match t.phase case Polling => s.books[t.flow].accounts == [] case Created(a) => s.books[t.flow].accounts == [a])
  }

  ghost predicate FlowsOk(s: System) {
    && s.flows.Keys <= s.books.Keys
    && forall id :: id in s.flows ==> FlowOk(s.flows[id], s.books[id], s.clock)
  }

  ghost predicate BooksOk(s: System, slack: nat) {
    forall id :: id in s.books ==> StartsOk(s.books[id], slack)
  }

  ghost predicate TasksOk(s: System) {
    forall t :: t in s.tasks ==> TaskOk(s, s.tasks[t])
  }

  /** At most one poll of a flow is in flight. */
  ghost predicate OneTaskPerFlow(s: System) {
    forall t, u :: t in s.tasks && u in s.tasks && s.tasks[t].flow == s.tasks[u].flow ==> t == u
  }

  ghost predicate Inv(s: System, slack: nat) {
    FlowsOk(s) && BooksOk(s, slack) && TasksOk(s) && OneTaskPerFlow(s)
  }

  // ------------------------------------------------------------------ one flow over one section

  lemma {:induction false} OneMoreGap(n: nat, gap: int)
    ensures (n + 1) * gap == n * gap + gap
    ensures n > 0 ==> (n - 1) * gap == n * gap - gap
  {
  }

  lemma {:induction false} EnterKeepsFlow(f: Flow, b: Book, clock: int, t1: int, t2: int, t3: int)
    requires FlowOk(f, b, clock) && clock <= t1 <= t2 <= t3
    ensures var (g, polls) := EnterFlow(f, t1, t2, t3);
            && FlowOk(g, if polls then CountStart(b, t3) else b, t3)
            && (g.polling <==> f.polling || polls)
            && g.owner == f.owner
  {
    OneMoreGap(b.starts, b.gap);
  }

  /** A poll starts only while the flow is unexpired, with no other poll in flight, and a full
      interval after the last start or answer. */
  lemma {:induction false} StartsOnTime(f: Flow, b: Book, clock: int, t1: int, t2: int, t3: int)
    requires FlowOk(f, b, clock) && clock <= t1 <= t2 <= t3
    requires EnterFlow(f, t1, t2, t3).1
    ensures !f.polling && b.accounts == []
    ensures t1 < b.began + FLOW_TTL
    ensures b.spoken.Some? ==> b.spoken.value + b.gap <= t2
    ensures b.starts * b.gap <= t2 - b.began
    ensures b.starts > 0 ==> (b.starts - 1) * b.gap < FLOW_TTL
  {
    OneMoreGap(b.starts, b.gap);
  }

  lemma {:induction false} PendingKeepsFlow(f: Flow, b: Book, clock: int, now: int)
    requires FlowOk(f, b, clock) && clock <= now && f.polling && b.accounts == []
    ensures FlowOk(PendingFlow(f, now), b.(spoken := Some(now)), now)
  {
  }

  /** An ended poll leaves a flow that no poll holds. */
  lemma {:induction false} EndKeepsFlow(f: Flow, b: Book, clock: int, now: int, error: string)
    requires FlowOk(f, b, clock) && clock <= now && f.polling
    ensures b.accounts == [] ==> FlowOk(FailedFlow(f, error), b, now)
    ensures |b.accounts| == 1 ==> FlowOk(SucceededFlow(f, b.accounts[0]), b, now)
  {
  }

  // ------------------------------------------------------------------ every step keeps the invariants

  ghost predicate Allowed(s: System, e: Event, slack: nat) {
    && Enabled(s, e)
    && (slack == 1 ==> OneInstant(e))
  }

  /** Nothing but the flow `id` and its book differ; flows may have been removed. */
  ghost predicate OnlyAt(s: System, t: System, id: string) {
    && s.clock <= t.clock
    && s.books.Keys <= t.books.Keys <= s.books.Keys + {id}
    && (forall k :: k in t.flows && k != id ==> k in s.flows && t.flows[k] == s.flows[k])
    && (forall k :: k in s.books && k != id ==> t.books[k] == s.books[k])
  }

  lemma {:induction false} FlowsKept(s: System, t: System, id: string, slack: nat)
    requires FlowsOk(s) && BooksOk(s, slack) && OnlyAt(s, t, id)
    requires id in t.flows ==> id in t.books && FlowOk(t.flows[id], t.books[id], t.clock)
    requires id in t.books ==> StartsOk(t.books[id], slack)
    ensures FlowsOk(t) && BooksOk(t, slack)
  {
  }

  /** The tasks of other flows are untouched. */
  lemma {:induction false} TasksKept(s: System, t: System, id: string)
    requires TasksOk(s) && OneTaskPerFlow(s) && OnlyAt(s, t, id)
    requires forall k :: k in t.tasks && t.tasks[k].flow != id ==> k in s.tasks && t.tasks[k] == s.tasks[k]
    requires forall j, k :: j in t.tasks && k in t.tasks && t.tasks[j].flow == t.tasks[k].flow == id ==> j == k
    requires forall k :: k in t.tasks && t.tasks[k].flow == id ==> TaskOk(t, t.tasks[k])
    ensures TasksOk(t) && OneTaskPerFlow(t)
  {
    forall k | k in t.tasks ensures TaskOk(t, t.tasks[k]) {
      assert t.tasks[k].flow != id ==> TaskOk(s, s.tasks[k]);
    }
  }

  lemma {:induction false} BeginKeeps(s: System, e: Event, slack: nat)
    requires Inv(s, slack) && e.Begin? && Enabled(s, e) && slack in {1, 2}
    ensures Inv(Step(s, e), slack)
  {
    var t := Step(s, e);
    forall k | k in s.tasks ensures s.tasks[k].flow != e.id {
      assert TaskOk(s, s.tasks[k]);
    }
    FlowsKept(s, t, e.id, slack);
    TasksKept(s, t, e.id);
  }

  /** A flow that starts a poll has none in flight. */
  lemma {:induction false} StartIsAlone(s: System, slack: nat, e: Event, t: nat)
    requires Inv(s, slack) && e.Enter? && Enabled(s, e) && e.id in s.flows && EnterFlow(s.flows[e.id], e.t1, e.t2, e.t3).1
    requires t in s.tasks
    ensures s.tasks[t].flow != e.id
  {
    assert TaskOk(s, s.tasks[t]);
  }

  lemma {:induction false} CountedStartOk(f: Flow, b: Book, clock: int, t1: int, t2: int, t3: int, slack: nat)
    requires FlowOk(f, b, clock) && StartsOk(b, slack) && clock <= t1 <= t2 <= t3
    requires EnterFlow(f, t1, t2, t3).1
    requires slack == 2 || (slack == 1 && t1 == t2)
    ensures StartsOk(CountStart(b, t3), slack)
  {
    StartsOnTime(f, b, clock, t1, t2, t3);
    if slack == 1 {
      assert (b.starts + 1 - 1) * b.gap == b.starts * b.gap;
    } else {
      assert (b.starts + 1 - 2) * b.gap == (b.starts - 1) * b.gap;
    }
  }

  lemma {:induction false} StartKeeps(s: System, e: Event, slack: nat)
    requires Inv(s, slack) && e.Enter? && Allowed(s, e, slack) && slack in {1, 2}
    requires e.id in s.flows && s.flows[e.id].owner == e.owner && EnterFlow(s.flows[e.id], e.t1, e.t2, e.t3).1
    ensures Inv(Step(s, e), slack)
  {
    var t, id := Step(s, e), e.id;
    var f, b := s.flows[id], s.books[id];
    EnterKeepsFlow(f, b, s.clock, e.t1, e.t2, e.t3);
    StartsOnTime(f, b, s.clock, e.t1, e.t2, e.t3);
    CountedStartOk(f, b, s.clock, e.t1, e.t2, e.t3, slack);
    forall k | k in s.tasks ensures s.tasks[k].flow != id {
      StartIsAlone(s, slack, e, k);
    }
    StartStep(s, e);
    OneMoreTask(s, t, id, e.task, slack);
  }

  lemma {:induction false} OneMoreTask(s: System, t: System, id: string, task: nat, slack: nat)
    requires Inv(s, slack) && OnlyAt(s, t, id)
    requires id in t.flows && t.flows[id].polling && id in t.books && t.books[id].accounts == []
    requires FlowOk(t.flows[id], t.books[id], t.clock) && StartsOk(t.books[id], slack)
    requires task !in s.tasks && t.tasks == s.tasks[task := Task(id, Polling)]
    requires forall k :: k in s.tasks ==> s.tasks[k].flow != id
    ensures Inv(t, slack)
  {
    FlowsKept(s, t, id, slack);
    TasksKept(s, t, id);
  }

  lemma {:induction false} StartStep(s: System, e: Event)
    requires e.Enter? && Enabled(s, e) && e.id in s.flows && e.id in s.books
    requires s.flows[e.id].owner == e.owner && EnterFlow(s.flows[e.id], e.t1, e.t2, e.t3).1
    ensures var t := Step(s, e);
            && t.flows == s.flows[e.id := EnterFlow(s.flows[e.id], e.t1, e.t2, e.t3).0]
            && t.tasks == s.tasks[e.task := Task(e.id, Polling)]
            && t.books == s.books[e.id := CountStart(s.books[e.id], e.t3)]
            && t.clock == e.t3
            && OnlyAt(s, t, e.id)
  {
  }

  lemma {:induction false} LookKeeps(s: System, e: Event, slack: nat)
    requires Inv(s, slack) && e.Enter? && Enabled(s, e)
    requires e.id in s.flows && s.flows[e.id].owner == e.owner ==> !EnterFlow(s.flows[e.id], e.t1, e.t2, e.t3).1
    ensures Inv(Step(s, e), slack)
  {
    var t, id := Step(s, e), e.id;
    if id in s.flows {
      EnterKeepsFlow(s.flows[id], s.books[id], s.clock, e.t1, e.t2, e.t3);
      LaterIsOk(s.flows[id], s.books[id], s.clock, e.t3);
    }
    FlowsKept(s, t, id, slack);
    EnteredTasks(s, t, id);
  }

  lemma {:induction false} LaterIsOk(f: Flow, b: Book, clock: int, later: int)
    requires FlowOk(f, b, clock) && clock <= later
    ensures FlowOk(f, b, later)
  {
  }

  lemma {:induction false} EnterKeeps(s: System, e: Event, slack: nat)
    requires Inv(s, slack) && e.Enter? && Allowed(s, e, slack) && slack in {1, 2}
    ensures Inv(Step(s, e), slack)
  {
    if e.id in s.flows && s.flows[e.id].owner == e.owner && EnterFlow(s.flows[e.id], e.t1, e.t2, e.t3).1 {
      StartKeeps(s, e, slack);
    } else {
      LookKeeps(s, e, slack);
    }
  }

  /** A section that starts no poll leaves the flow polling or not, as it was. */
  lemma {:induction false} EnteredTasks(s: System, t: System, id: string)
    requires TasksOk(s) && OneTaskPerFlow(s) && OnlyAt(s, t, id)
    requires t.tasks == s.tasks && t.books == s.books && t.flows.Keys == s.flows.Keys
    requires id in s.flows ==> t.flows[id].polling == s.flows[id].polling
    ensures TasksOk(t) && OneTaskPerFlow(t)
  {
    forall k | k in t.tasks ensures TaskOk(t, t.tasks[k]) {
      assert TaskOk(s, s.tasks[k]);
    }
  }

  lemma {:induction false} CreateKeeps(s: System, e: Event, slack: nat)
    requires Inv(s, slack) && e.CreateAccount? && Enabled(s, e)
    ensures Inv(Step(s, e), slack)
  {
    var t, id := Step(s, e), s.tasks[e.task].flow;
    assert TaskOk(s, s.tasks[e.task]);
    assert s.books[id].accounts + [e.account] == [e.account];
    FlowsKept(s, t, id, slack);
    TasksKept(s, t, id);
  }

  ghost predicate Ends(e: Event) {
    e.AnswerPending? || e.AnswerFailed? || e.StoreAccount?
  }

  /** Only the flow `id` was touched, and it is as it should be. */
  ghost predicate KeptAt(s: System, t: System, id: string, slack: nat) {
    && OnlyAt(s, t, id) && id in t.books && StartsOk(t.books[id], slack)
    && (id in t.flows ==> FlowOk(t.flows[id], t.books[id], t.clock))
  }

  lemma {:induction false} PendingKeepsAt(s: System, e: Event, slack: nat)
    requires Inv(s, slack) && e.AnswerPending? && Enabled(s, e)
    ensures KeptAt(s, Step(s, e), s.tasks[e.task].flow, slack)
  {
    var id := s.tasks[e.task].flow;
    assert TaskOk(s, s.tasks[e.task]);
    if id in s.flows {
      PendingKeepsFlow(s.flows[id], s.books[id], s.clock, e.now);
    }
  }

  lemma {:induction false} FailedKeepsAt(s: System, e: Event, slack: nat)
    requires Inv(s, slack) && e.AnswerFailed? && Enabled(s, e)
    ensures KeptAt(s, Step(s, e), s.tasks[e.task].flow, slack)
  {
    var id := s.tasks[e.task].flow;
    assert TaskOk(s, s.tasks[e.task]);
    if id in s.flows {
      EndKeepsFlow(s.flows[id], s.books[id], s.clock, e.now, e.error);
    }
  }

  lemma {:induction false} StoreKeepsAt(s: System, e: Event, slack: nat)
    requires Inv(s, slack) && e.StoreAccount? && Enabled(s, e)
    ensures KeptAt(s, Step(s, e), s.tasks[e.task].flow, slack)
  {
    var id := s.tasks[e.task].flow;
    assert TaskOk(s, s.tasks[e.task]);
    if id in s.flows {
      EndKeepsFlow(s.flows[id], s.books[id], s.clock, e.now, "");
    }
  }

  lemma {:induction false} EndKeeps(s: System, e: Event, slack: nat)
    requires Inv(s, slack) && Ends(e) && Enabled(s, e)
    ensures Inv(Step(s, e), slack)
  {
    var t, id := Step(s, e), s.tasks[e.task].flow;
    match e {
      case AnswerPending(_, _) => PendingKeepsAt(s, e, slack);
      case AnswerFailed(_, _, _) => FailedKeepsAt(s, e, slack);
      case StoreAccount(_, _) => StoreKeepsAt(s, e, slack);
    }
    FlowsKept(s, t, id, slack);
    TasksKept(s, t, id);
  }

  lemma {:induction false} CancelKeeps(s: System, e: Event, slack: nat)
    requires Inv(s, slack) && e.Cancel? && Enabled(s, e)
    ensures Inv(Step(s, e), slack)
  {
    var t, id := Step(s, e), s.tasks[e.task].flow;
    assert TaskOk(s, s.tasks[e.task]);
    FlowsKept(s, t, id, slack);
    TasksKept(s, t, id);
  }

  lemma {:induction false} StepKeeps(s: System, e: Event, slack: nat)
    requires Inv(s, slack) && Allowed(s, e, slack) && slack in {1, 2}
    ensures Inv(Step(s, e), slack)
  {
    match e
    case Begin(_, _, _, _, _) => BeginKeeps(s, e, slack);
    case Enter(_, _, _, _, _, _) => EnterKeeps(s, e, slack);
    case CreateAccount(_, _, _) => CreateKeeps(s, e, slack);
    case Cancel(_, _) => CancelKeeps(s, e, slack);
    case AnswerPending(_, _) => EndKeeps(s, e, slack);
    case AnswerFailed(_, _, _) => EndKeeps(s, e, slack);
    case StoreAccount(_, _) => EndKeeps(s, e, slack);
  }

  // ------------------------------------------------------------------ runs

  ghost predicate Next(s: System, e: Event, t: System, slack: nat) {
    Allowed(s, e, slack) && t == Step(s, e)
  }

  ghost predicate Run(states: seq<System>, events: seq<Event>, slack: nat) {
    && |states| == |events| + 1
    && states[0].flows == map[] && states[0].tasks == map[] && states[0].books == map[]
    && forall k :: 0 <= k < |events| ==> Next(states[k], events[k], states[k + 1], slack)
  }

  /** The invariants hold in every reachable state: with one instant for each section (slack 1), and
      with three readings of the clock (slack 2). */
  lemma {:induction false} RunKeepsInv(states: seq<System>, events: seq<Event>, slack: nat, k: nat)
    requires Run(states, events, slack) && slack in {1, 2} && k <= |events|
    ensures Inv(states[k], slack)
    decreases k
  {
    if k > 0 {
      var j := k - 1;
      RunKeepsInv(states, events, slack, j);
      assert Next(states[j], events[j], states[j + 1], slack);
      StepKeeps(states[j], events[j], slack);
    }
  }

  // ------------------------------------------------------------------ what holds of every run

  /** The quotient of the login's lifetime by the gap between polls, rounded up. */
  function PollBound(gap: int): int
    requires gap > 0
  {
    (FLOW_TTL + gap - 1) / gap
  }

  lemma {:induction false} QuotientIs(a: int, g: int, q: int)
    requires g > 0 && q * g <= a < (q + 1) * g
    ensures a / g == q
  {
    var r := a / g;
    assert r * g <= a < r * g + g;
    Monotone(r + 1, q, g);
    Monotone(q + 1, r, g);
  }

  lemma {:induction false} Monotone(a: int, b: int, g: int)
    requires g > 0
    ensures a <= b ==> a * g <= b * g
  {
  }

  /** In seconds: at most ceil(900 / interval). */
  lemma {:induction false} PollBoundInSeconds(interval: nat)
    requires 1 <= interval <= 60
    ensures PollBound(interval * SECOND) == (900 + interval - 1) / interval
  {
    var q, i := (900 + interval - 1) / interval, interval;
    assert q * i <= 899 + i < (q + 1) * i;
    assert (q * i) * SECOND == q * (i * SECOND);
    assert ((q + 1) * i) * SECOND == (q + 1) * (i * SECOND);
    QuotientIs(FLOW_TTL + i * SECOND - 1, i * SECOND, q);
  }

  lemma {:induction false} FewStarts(n: int, gap: int)
    requires gap > 0 && n * gap < FLOW_TTL
    ensures n < PollBound(gap)
  {
    var q := PollBound(gap);
    assert q * gap >= FLOW_TTL;
    Monotone(q, n, gap);
  }

  /** In every reachable state each login has at most one poll in flight, has created at most one
      account, and has started at most ceil(lifetime / gap) polls; one more when the section that
      starts a poll reads the clock at several instants. */
  lemma {:induction false} LoginIsSafe(states: seq<System>, events: seq<Event>, slack: nat, k: nat, id: string)
    requires Run(states, events, slack) && slack in {1, 2} && k <= |events| && id in states[k].books
    ensures var b := states[k].books[id];
            && SECOND <= b.gap <= 60 * SECOND
            && |b.accounts| <= 1
            && b.starts <= PollBound(b.gap) + slack - 1
    ensures forall t, u :: t in states[k].tasks && u in states[k].tasks && states[k].tasks[t].flow == states[k].tasks[u].flow == id ==> t == u
  {
    RunKeepsInv(states, events, slack, k);
    var b := states[k].books[id];
    assert StartsOk(b, slack);
    if b.starts >= slack {
      FewStarts(b.starts - slack, b.gap);
    } else {
      FewStarts(0, b.gap);
    }
  }

  lemma {:induction false} RunGrows(states: seq<System>, events: seq<Event>, slack: nat, e: Event)
    requires Run(states, events, slack) && Allowed(states[|events|], e, slack)
    ensures Run(states + [Step(states[|events|], e)], events + [e], slack)
  {
    var more, t := events + [e], states + [Step(states[|events|], e)];
    forall k | 0 <= k < |more| ensures Next(t[k], more[k], t[k + 1], slack) {
      assert k < |events| ==> Next(states[k], events[k], states[k + 1], slack);
    }
  }

  /** A login of the given interval, polled n times as fast as it allows, each poll answered at once. */
  function Polled(interval: nat, n: nat): System {
    var gap := interval * SECOND;
    System(map["f" := Flow("o", "", interval, FLOW_TTL, n * gap, false, Pending, None, None)], map[],
           map["f" := Book(0, gap, n, if n == 0 then None else Some((n - 1) * gap), [])],
           if n == 0 then 0 else (n - 1) * gap)
  }

  lemma {:induction false} BeginsUnpolled(interval: nat) returns (states: seq<System>, events: seq<Event>)
    requires 1 <= interval <= 60
    ensures Run(states, events, 1) && |events| == 1 && states[|events|] == Polled(interval, 0)
  {
    var s0, e0 := System(map[], map[], map[], 0), Event.Begin("f", "o", "", interval, 0);
    assert Run([s0], [], 1);
    RunGrows([s0], [], 1, e0);
    states, events := [s0] + [Step(s0, e0)], [] + [e0];
    assert Step(s0, e0) == Polled(interval, 0);
  }

  lemma {:induction false} OneMorePoll(interval: nat, n: nat)
    requires 1 <= interval <= 60 && n * (interval * SECOND) < FLOW_TTL
    ensures var s, at := Polled(interval, n), n * (interval * SECOND);
            var enter := Event.Enter(0, "f", "o", at, at, at);
            && Allowed(s, enter, 1)
            && Allowed(Step(s, enter), AnswerPending(0, at), 1)
            && Step(Step(s, enter), AnswerPending(0, at)) == Polled(interval, n + 1)
  {
    var s, gap := Polled(interval, n), interval * SECOND;
    var at := n * gap;
    OneMoreGap(n, gap);
    var t := Step(s, Event.Enter(0, "f", "o", at, at, at));
    assert t == System(map["f" := Flow("o", "", interval, FLOW_TTL, at + gap, true, Pending, None, None)], map[0 := Task("f", Polling)],
                       map["f" := Book(0, gap, n + 1, Some(at), [])], at);
    var u := Step(t, AnswerPending(0, at));
    assert u.tasks == map[];
    assert u.flows == map["f" := Flow("o", "", interval, FLOW_TTL, at + gap, false, Pending, None, None)];
    assert u.books == map["f" := Book(0, gap, n + 1, Some(at), [])];
  }

  lemma {:induction false} PollsFast(interval: nat, n: nat) returns (states: seq<System>, events: seq<Event>)
    requires 1 <= interval <= 60 && n <= PollBound(interval * SECOND)
    ensures Run(states, events, 1) && states[|events|] == Polled(interval, n)
  {
    if n == 0 {
      states, events := BeginsUnpolled(interval);
    } else {
      states, events := PollsFast(interval, n - 1);
      var at := (n - 1) * (interval * SECOND);
      Monotone(n, PollBound(interval * SECOND), interval * SECOND);
      LastPollIsEarly(interval * SECOND);
      Monotone(n - 1, PollBound(interval * SECOND) - 1, interval * SECOND);
      OneMorePoll(interval, n - 1);
      var enter := Event.Enter(0, "f", "o", at, at, at);
      RunGrows(states, events, 1, enter);
      states, events := states + [Step(states[|events|], enter)], events + [enter];
      RunGrows(states, events, 1, AnswerPending(0, at));
      states, events := states + [Step(states[|events|], AnswerPending(0, at))], events + [AnswerPending(0, at)];
    }
  }

  lemma {:induction false} LastPollIsEarly(gap: int)
    requires 0 < gap <= FLOW_TTL
    ensures 0 < PollBound(gap) && (PollBound(gap) - 1) * gap < FLOW_TTL <= PollBound(gap) * gap
  {
    var q := PollBound(gap);
    assert q * gap <= FLOW_TTL + gap - 1 < q * gap + gap;
    assert (q - 1) * gap == q * gap - gap;
  }

  lemma {:induction false} LooserRun(states: seq<System>, events: seq<Event>)
    requires Run(states, events, 1)
    ensures Run(states, events, 2)
  {
    forall k | 0 <= k < |events| ensures Next(states[k], events[k], states[k + 1], 2) {
      assert Next(states[k], events[k], states[k + 1], 1);
    }
  }

  /** Both bounds are met, for every interval: with one instant for each section a login can start
      ceil(lifetime / gap) polls, and with several readings of the clock one more, which begins after
      the login has expired. */
  lemma {:induction false} PollBoundsAreMet(interval: nat)
      returns (states: seq<System>, events: seq<Event>, late: seq<System>, lateEvents: seq<Event>)
    requires 1 <= interval <= 60
    ensures Run(states, events, 1) && Run(late, lateEvents, 2)
    ensures "f" in states[|events|].books && "f" in late[|lateEvents|].books
    ensures var gap := interval * SECOND;
            && states[|events|].books["f"].gap == late[|lateEvents|].books["f"].gap == gap
            && states[|events|].books["f"].starts == PollBound(gap)
            && late[|lateEvents|].books["f"].starts == PollBound(gap) + 1
            && late[|lateEvents|].books["f"].spoken.Some?
            && late[|lateEvents|].books["f"].spoken.value >= FLOW_TTL
  {
    var gap := interval * SECOND;
    var q := PollBound(gap);
    LastPollIsEarly(gap);
    states, events := PollsFast(interval, q);
    LooserRun(states, events);
    var e := Event.Enter(0, "f", "o", FLOW_TTL - 1, q * gap, q * gap);
    RunGrows(states, events, 2, e);
    late, lateEvents := states + [Step(states[|events|], e)], events + [e];
  }

  /** Polls keep their distance: a poll starts only a full gap after the last start or answer. */
  lemma {:induction false} PollsAreSpaced(s: System, e: Event, slack: nat)
    requires Inv(s, slack) && e.Enter? && Enabled(s, e)
    requires e.task in Step(s, e).tasks
    ensures e.id in s.books && e.id in s.flows && s.flows[e.id].owner == e.owner
    ensures var b := s.books[e.id];
            && e.t1 < b.began + FLOW_TTL
            && (b.spoken.Some? ==> b.spoken.value + b.gap <= e.t2)
            && b.accounts == []
  {
    StartsOnTime(s.flows[e.id], s.books[e.id], s.clock, e.t1, e.t2, e.t3);
  }

  predicate Final(f: Flow) {
    f.status.Succeeded? || f.status.Failed?
  }

  /** A step leaves a finished login as it is, or removes it. */
  lemma {:induction false} FinalFlowStays(s: System, e: Event, slack: nat, id: string)
    requires Inv(s, slack) && Enabled(s, e) && id in s.flows && Final(s.flows[id]) && id in Step(s, e).flows
    ensures Step(s, e).flows[id] == s.flows[id]
  {
    if e.AnswerPending? || e.AnswerFailed? || e.StoreAccount? {
      assert TaskOk(s, s.tasks[e.task]);
    }
  }

  lemma {:induction false} RemovedStaysRemoved(s: System, e: Event, id: string)
    requires Enabled(s, e) && id in s.books && id !in s.flows
    ensures id in Step(s, e).books && id !in Step(s, e).flows
  {
  }

  lemma {:induction false} StaysRemoved(states: seq<System>, events: seq<Event>, slack: nat, j: nat, k: nat, id: string)
    requires Run(states, events, slack) && j <= k <= |events| && id in states[j].books && id !in states[j].flows
    ensures id !in states[k].flows && id in states[k].books
    decreases k
  {
    if j < k {
      var i := k - 1;
      StaysRemoved(states, events, slack, j, i, id);
      assert Next(states[i], events[i], states[i + 1], slack);
      RemovedStaysRemoved(states[i], events[i], id);
    }
  }

  /** `Succeeded` and `Failed` never change, over any part of any run. */
  lemma {:induction false} FinalForever(states: seq<System>, events: seq<Event>, slack: nat, j: nat, k: nat, id: string)
    requires Run(states, events, slack) && slack in {1, 2} && j <= k <= |events|
    requires id in states[j].flows && Final(states[j].flows[id]) && id in states[k].flows
    ensures states[k].flows[id] == states[j].flows[id]
    decreases k - j
  {
    if j < k {
      assert Next(states[j], events[j], states[j + 1], slack);
      RunKeepsInv(states, events, slack, j);
      RunKeepsInv(states, events, slack, j + 1);
      BooksGrow(states[j], events[j], id);
      if id !in states[j + 1].flows {
        StaysRemoved(states, events, slack, j + 1, k, id);
      } else {
        FinalFlowStays(states[j], events[j], slack, id);
        FinalForever(states, events, slack, j + 1, k, id);
      }
    }
  }

  lemma {:induction false} BooksGrow(s: System, e: Event, id: string)
    requires Enabled(s, e) && id in s.books
    ensures id in Step(s, e).books
  {
  }

  /** A login leaves `Expired` only when the one poll that was in flight reports success or failure. */
  lemma {:induction false} ExpiredLeavesByItsPoll(s: System, e: Event, slack: nat, id: string)
    requires Inv(s, slack) && Enabled(s, e) && id in s.flows && s.flows[id].status.Expired? && id in Step(s, e).flows
    ensures !Step(s, e).flows[id].status.Expired? <==>
            (e.AnswerFailed? || e.StoreAccount?) && s.tasks[e.task].flow == id && s.flows[id].polling
  {
    if e.AnswerPending? || e.AnswerFailed? || e.StoreAccount? {
      assert TaskOk(s, s.tasks[e.task]);
    }
  }

  /** The login "f" as it is while its one poll, by call 0, is in flight. */
  ghost predicate Waits(s: System, status: Status, phase: Phase) {
    && s.clock <= FLOW_TTL && s.tasks == map[0 := Task("f", phase)]
    && "f" in s.flows
    && var f := s.flows["f"];
       f.owner == "o" && f.polling && f.expiresAt == FLOW_TTL && f.status == status
  }

  lemma {:induction false} PollOpens()
    ensures var s, e := Polled(5, 0), Event.Enter(0, "f", "o", 0, 0, 0);
            Allowed(s, e, 1) && Waits(Step(s, e), Pending, Polling)
  {
  }

  lemma {:induction false} LooksLate(s: System)
    requires Waits(s, Pending, Polling)
    ensures var e := Event.Enter(1, "f", "o", FLOW_TTL, FLOW_TTL, FLOW_TTL);
            Allowed(s, e, 1) && Waits(Step(s, e), Expired, Polling)
  {
  }

  lemma {:induction false} CreatesLate(s: System)
    requires Waits(s, Expired, Polling)
    ensures var e := CreateAccount(0, "a", FLOW_TTL);
            Allowed(s, e, 1) && Waits(Step(s, e), Expired, Created("a"))
  {
  }

  lemma {:induction false} StoresLate(s: System)
    requires Waits(s, Expired, Created("a"))
    ensures var e := StoreAccount(0, FLOW_TTL);
            Allowed(s, e, 1) && "f" in Step(s, e).flows && Step(s, e).flows["f"].status.Succeeded?
  {
  }

  /** Such a run exists: a login that expires while its poll is in flight, and then succeeds. */
  lemma {:induction false} ExpiredCanSucceed() returns (states: seq<System>, events: seq<Event>)
    ensures Run(states, events, 1) && |events| == 5
    ensures "f" in states[3].flows && states[3].flows["f"].status.Expired?
    ensures "f" in states[5].flows && states[5].flows["f"].status.Succeeded?
  {
    states, events := BeginsUnpolled(5);
    PollOpens();
    states, events := Extend(states, events, Event.Enter(0, "f", "o", 0, 0, 0));
    LooksLate(states[2]);
    states, events := Extend(states, events, Event.Enter(1, "f", "o", FLOW_TTL, FLOW_TTL, FLOW_TTL));
    CreatesLate(states[3]);
    states, events := Extend(states, events, CreateAccount(0, "a", FLOW_TTL));
    StoresLate(states[4]);
    states, events := Extend(states, events, StoreAccount(0, FLOW_TTL));
  }

  lemma {:induction false} Extend(states: seq<System>, events: seq<Event>, e: Event) returns (more: seq<System>, moreEvents: seq<Event>)
    requires Run(states, events, 1) && Allowed(states[|events|], e, 1)
    ensures more == states + [Step(states[|events|], e)] && moreEvents == events + [e] && Run(more, moreEvents, 1)
  {
    RunGrows(states, events, 1, e);
    more, moreEvents := states + [Step(states[|events|], e)], events + [e];
  }

  /** A stored success carries the one account that its login created. */
  lemma {:induction false} SuccessHasItsAccount(states: seq<System>, events: seq<Event>, slack: nat, k: nat, id: string)
    requires Run(states, events, slack) && slack in {1, 2} && k <= |events| && id in states[k].flows
    ensures var f := states[k].flows[id];
            && id in states[k].books
            && (f.status.Succeeded? ==> f.account.Some? && states[k].books[id].accounts == [f.account.value])
            && (!f.status.Succeeded? ==> f.account == None)
            && (f.status.Failed? ==> states[k].books[id].accounts == [])
  {
    RunKeepsInv(states, events, slack, k);
    assert FlowOk(states[k].flows[id], states[k].books[id], states[k].clock);
  }

  /** No call polls for the login any more, and it is polling or gone. */
  ghost predicate Blocked(s: System, id: string) {
    && id in s.books
    && (forall t :: t in s.tasks ==> s.tasks[t].flow != id)
    && (id in s.flows ==> s.flows[id].polling && !Final(s.flows[id]))
  }

  lemma {:induction false} StaysBlocked(s: System, e: Event, slack: nat, id: string)
    requires Inv(s, slack) && Enabled(s, e) && Blocked(s, id)
    ensures Blocked(Step(s, e), id) && Step(s, e).books[id] == s.books[id]
  {
    if id in s.flows {
      assert FlowOk(s.flows[id], s.books[id], s.clock);
    }
    if e.AnswerPending? || e.AnswerFailed? || e.StoreAccount? || e.CreateAccount? {
      assert TaskOk(s, s.tasks[e.task]);
    }
  }

  /** A call that is cancelled while it polls leaves its login blocked. */
  lemma {:induction false} CancelBlocks(s: System, e: Event, slack: nat)
    requires Inv(s, slack) && e.Cancel? && Enabled(s, e)
    ensures Blocked(Step(s, e), s.tasks[e.task].flow)
  {
    var id := s.tasks[e.task].flow;
    assert TaskOk(s, s.tasks[e.task]);
    if id in s.flows {
      assert FlowOk(s.flows[id], s.books[id], s.clock);
    }
  }

  /** Over any rest of any run a login whose poll was cancelled never polls, creates an account or
      finishes again: it can only expire and be removed. */
  lemma {:induction false} CancelledPollBlocks(states: seq<System>, events: seq<Event>, slack: nat, j: nat, k: nat)
    requires Run(states, events, slack) && slack in {1, 2} && j < k <= |events| && events[j].Cancel?
    ensures Enabled(states[j], events[j])
    ensures var id := states[j].tasks[events[j].task].flow;
            Blocked(states[k], id) && id in states[j].books && states[k].books[id] == states[j].books[id]
    decreases k
  {
    assert Next(states[j], events[j], states[j + 1], slack);
    var id := states[j].tasks[events[j].task].flow;
    if k == j + 1 {
      RunKeepsInv(states, events, slack, j);
      assert TaskOk(states[j], states[j].tasks[events[j].task]);
      CancelBlocks(states[j], events[j], slack);
    } else {
      var i := k - 1;
      CancelledPollBlocks(states, events, slack, j, i);
      RunKeepsInv(states, events, slack, i);
      assert Next(states[i], events[i], states[i + 1], slack);
      StaysBlocked(states[i], events[i], slack, id);
    }
  }

  /** `begin` removes a login with a poll in flight only five minutes after it expired, and another
      one only once it is expired or finished. */
  lemma {:induction false} PruneSparesLiveLogins(s: System, e: Event, slack: nat, id: string)
    requires Inv(s, slack) && Enabled(s, e) && id in s.flows
    ensures id !in Step(s, e).flows ==>
              && e.Begin?
              && (if s.flows[id].polling then s.books[id].began + FLOW_TTL + CLEANUP_GRACE <= e.now
                  else s.books[id].began + FLOW_TTL <= Step(s, e).clock || Final(s.flows[id]))
    ensures id !in Step(s, e).flows <==>
              && e.Begin?
              && (if s.flows[id].polling then s.books[id].began + (900 + 300) * SECOND <= e.now
                  else s.books[id].began + 900 * SECOND <= e.now || !s.flows[id].status.Pending?)
  {
    assert FlowOk(s.flows[id], s.books[id], s.clock);
  }
}
