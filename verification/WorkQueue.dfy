/** The work queue: any number of workers and callers over one linked list, one mutex and one condition variable.
    Every method is one atomic step of one thread, and Run is any interleaving of them. */
module WorkQueue {
  class Job {
    var prev: Job?
    var next: Job?
  }

  class Worker {
    var terminate: bool
    var prev: Worker?
    var next: Worker?
  }

  /** Where a worker is in worker_function. */
  datatype WorkerPc =
    | Lock                  // before pthread_mutex_lock
    | TestList              // the inner while condition
    | TestInner             // the list was empty: test terminate
    | Wait                  // about to call pthread_cond_wait
    | Asleep                // inside pthread_cond_wait, without the mutex
    | Woken                 // signalled, before it has the mutex again
    | TestOuter             // test terminate after the inner loop
    | Take                  // about to take the head of the list
    | Unlock(job: Job?)
    | Call(job: Job?)       // about to call job_function
    | Running(job: Job?)
    | Exited                // left the outer loop
  {
    /** The mutex is held.  A worker that leaves the loop does not release it. */
    predicate Holds() {
      TestList? || TestInner? || Wait? || TestOuter? || Take? || Unlock? || Exited?
    }

    predicate Carries() {
      Unlock? || Call? || Running?
    }
  }

  /** Where a caller is in workqueue_add_job or workqueue_shutdown. */
  datatype CallerPc =
    | AddLock(job: Job)
    | AddLink(job: Job)
    | AddSignal
    | AddUnlock
    | Mark(cursor: Worker?)
    | ShutLock
    | ClearWorkers
    | ClearJobs
    | Broadcast
    | ShutUnlock
  {
    predicate Holds() {
      !AddLock? && !Mark? && !ShutLock?
    }

    predicate Adds() {
      AddLock? || AddLink?
    }

    predicate Marks() {
      !Adds() && !AddSignal? && !AddUnlock?
    }

    /** The broadcast is still to come. */
    predicate WillWake() {
      Marks() && !ShutUnlock?
    }
  }

  /** Who has jobs_mutex. */
  datatype Owner = Free | ByWorker(worker: Worker) | ByCaller(caller: nat)

  /** Where a submission is: one call of workqueue_add_job makes one submission. */
  datatype Place = Waiting | Taken(worker: Worker) | Started(worker: Worker) | Finished(worker: Worker) | Dropped

  datatype Entry = Entry(job: Job, place: Place)

  /** A submission only moves forward, and stays with the worker that took it. */
  ghost predicate Later(p: Place, q: Place) {
    match p
    case Waiting => true
    case Taken(w) => q == Taken(w) || q == Started(w) || q == Finished(w)
    case Started(w) => q == Started(w) || q == Finished(w)
    case Finished(_) => q == p
    case Dropped => q == p
  }

  ghost predicate Extends(a: seq<Entry>, b: seq<Entry>) {
    && |a| <= |b|
    && forall t {:trigger b[t]} | 0 <= t < |a| :: b[t].job == a[t].job && Later(a[t].place, b[t].place)
  }

  lemma ExtendsTrans(a: seq<Entry>, b: seq<Entry>, c: seq<Entry>)
    requires Extends(a, b) && Extends(b, c)
    ensures Extends(a, c)
  {
    forall t | 0 <= t < |a|
      ensures c[t].job == a[t].job && Later(a[t].place, c[t].place)
    {
      assert b[t].job == a[t].job;
    }
  }

  /** The jobs that were added. */
  function Added(ledger: seq<Entry>): (r: seq<Job>)
    ensures |r| == |ledger| && forall t | 0 <= t < |r| :: r[t] == ledger[t].job
  {
    seq(|ledger|, t requires 0 <= t < |ledger| => ledger[t].job)
  }

  /** Calls of different submissions: each job is called at most as often as it was submitted. */
  lemma {:induction false} CallsAreSubmitted(ledger: seq<Entry>, runs: seq<nat>, calls: seq<Job>)
    requires |runs| == |calls|
    requires forall i | 0 <= i < |runs| :: runs[i] < |ledger| && ledger[runs[i]].job == calls[i]
    requires forall i, j | 0 <= i < j < |runs| :: runs[i] != runs[j]
    ensures multiset(calls) <= multiset(Added(ledger))
  {
    var jobs := Added(ledger);
    forall j: Job
      ensures multiset(calls)[j] <= multiset(jobs)[j]
    {
      var times := set i: nat | i < |calls| && calls[i] == j;
      var tickets := set t: nat | t < |jobs| && jobs[t] == j;
      Occurrences(calls, j, times);
      Occurrences(jobs, j, tickets);
      var image := set i | i in times :: runs[i];
      Injective(times, runs, image);
      Subset(image, tickets);
    }
  }

  lemma {:induction false} Occurrences(s: seq<Job>, j: Job, at: set<nat>)
    requires at == set i: nat | i < |s| && s[i] == j
    ensures multiset(s)[j] == |at|
  {
    if s == [] {
      assert at == {};
    } else {
      var n := |s| - 1;
      assert s == s[..n] + [s[n]];
      var front := set i: nat | i < n && s[..n][i] == j;
      Occurrences(s[..n], j, front);
      assert at == if s[n] == j then front + {n} else front;
    }
  }

  lemma {:induction false} Injective(at: set<nat>, runs: seq<nat>, image: set<nat>)
    requires forall i | i in at :: i < |runs|
    requires forall i, j | 0 <= i < j < |runs| :: runs[i] != runs[j]
    requires image == set i | i in at :: runs[i]
    ensures |image| == |at|
    decreases |at|
  {
    if at == {} {
      assert image == {};
    } else {
      var i: nat :| i in at;
      var rest := set k | k in at - {i} :: runs[k];
      Injective(at - {i}, runs, rest);
      forall k | k in at - {i}
        ensures runs[k] != runs[i]
      {
      }
      assert image == rest + {runs[i]};
    }
  }

  lemma {:induction false} Subset(a: set<nat>, b: set<nat>)
    requires forall t | t in a :: t in b
    ensures |a| <= |b|
    decreases |a|
  {
    if a != {} {
      var t: nat :| t in a;
      Subset(a - {t}, b - {t});
    }
  }

  /** A submission is waiting exactly when its node is on the list, the newest in front. */
  ghost predicate Stacked(ledger: seq<Entry>, stack: seq<nat>, nodes: seq<Job>) {
    && |stack| == |nodes|
    && (forall i | 0 <= i < |stack| :: stack[i] < |ledger| && ledger[stack[i]] == Entry(nodes[i], Waiting))
    && (forall i, j | 0 <= i < j < |stack| :: stack[i] > stack[j])
    && (forall t | 0 <= t < |ledger| && ledger[t].place.Waiting? :: t in stack)
  }

  /** A submission is with a worker exactly when that worker carries it. */
  ghost predicate Delivered(ledger: seq<Entry>, at: map<Worker, WorkerPc>, ticket: map<Worker, nat>) {
    && (forall w | w in at && at[w].Carries() ::
          && w in ticket && ticket[w] < |ledger|
          && ledger[ticket[w]] == Entry(ledger[ticket[w]].job, if at[w].Running? then Started(w) else Taken(w))
          && at[w].job == ledger[ticket[w]].job)
    && (forall t | 0 <= t < |ledger| && (ledger[t].place.Taken? || ledger[t].place.Started?) ::
          var w := ledger[t].place.worker;
          w in at && at[w].Carries() && w in ticket && ticket[w] == t)
  }

  /** The log of calls has each submission that was started, once. */
  ghost predicate Logged(ledger: seq<Entry>, calls: seq<Job>, runs: seq<nat>) {
    && |calls| == |runs|
    && (forall i | 0 <= i < |runs| ::
          && runs[i] < |ledger| && ledger[runs[i]].job == calls[i]
          && (ledger[runs[i]].place.Started? || ledger[runs[i]].place.Finished?))
    && (forall i, j | 0 <= i < j < |runs| :: runs[i] != runs[j])
    && (forall t | 0 <= t < |ledger| && (ledger[t].place.Started? || ledger[t].place.Finished?) :: t in runs)
  }

  /** Mutual exclusion. */
  ghost predicate Excluded(owner: Owner, at: map<Worker, WorkerPc>, doing: map<nat, CallerPc>) {
    && (forall w | w in at :: at[w].Holds() <==> owner == ByWorker(w))
    && (forall c | c in doing :: doing[c].Holds() <==> owner == ByCaller(c))
    && (owner.ByWorker? ==> owner.worker in at)
    && (owner.ByCaller? ==> owner.caller in doing)
  }

  /** What a worker has seen of the list and of its flag is still so. */
  ghost predicate Seen(at: map<Worker, WorkerPc>, flagged: set<Worker>, empty: bool) {
    && (forall w | w in at && (at[w].TestInner? || at[w].Wait?) :: empty)
    && (forall w | w in at && (at[w].Take? || (at[w].TestOuter? && w !in flagged)) :: !empty)
    && (forall w | w in at && at[w].Exited? :: w in flagged)
  }

  /** What callers of workqueue_add_job promise: a job is not added while it is on the list or being added. */
  ghost predicate Promised(doing: map<nat, CallerPc>, nodes: seq<Job>, jobs: set<Job>) {
    && (forall c | c in doing && doing[c].Adds() :: doing[c].job in jobs && doing[c].job !in nodes)
    && (forall c, d | c in doing && d in doing && c != d && doing[c].Adds() && doing[d].Adds() :: doing[c].job != doing[d].job)
  }

  /** From its index start on, list is linked by next from head. */
  ghost predicate Chain(list: seq<Worker>, head: Worker?, start: nat, next: map<Worker, Worker?>)
    requires start <= |list|
  {
    && (forall i | 0 <= i < |list| :: list[i] in next)
    && (forall i {:trigger list[i]} | 0 < i < |list| :: next[list[i - 1]] == list[i])
    && (list != [] ==> next[list[|list| - 1]] == null)
    && head == if start < |list| then list[start] else null
  }

  /** The list of workers that a shutdown found when it was called, and how many of them it has marked. */
  datatype Round = Round(targets: seq<Worker>, marked: nat)

  ghost predicate Marked(doing: map<nat, CallerPc>, rounds: map<nat, Round>, flagged: set<Worker>, next: map<Worker, Worker?>) {
    forall c | c in doing && doing[c].Marks() ::
      && c in rounds && rounds[c].marked <= |rounds[c].targets|
      && (forall i | 0 <= i < |rounds[c].targets| :: rounds[c].targets[i] in next)
      && (forall i | 0 <= i < rounds[c].marked :: rounds[c].targets[i] in flagged)
      && (if doing[c].Mark? then Chain(rounds[c].targets, doing[c].cursor, rounds[c].marked, next)
          else rounds[c].marked == |rounds[c].targets|)
  }

  /** In the loop, and not blocked in pthread_cond_wait. */
  ghost predicate Awake(w: Worker, at: map<Worker, WorkerPc>) {
    w in at && !at[w].Asleep? && !at[w].Exited?
  }

  /** No lost wake-up: while a job waits, a worker is up, or one is about to be signalled, or one has left with
      the mutex. */
  ghost predicate Alert(empty: bool, at: map<Worker, WorkerPc>, doing: map<nat, CallerPc>, owner: Owner) {
    empty || at == map[] || (exists w | w in at :: Awake(w, at))
    || (owner.ByCaller? && owner.caller in doing && doing[owner.caller].AddSignal?)
    || (owner.ByWorker? && owner.worker in at && at[owner.worker].Exited?)
  }

  /** Inside pthread_cond_wait, or about to be. */
  ghost predicate Sleeps(w: Worker, at: map<Worker, WorkerPc>) {
    w in at && (at[w].Wait? || at[w].Asleep?)
  }

  /** A shutdown that found this worker will still wake everybody. */
  ghost predicate Expected(w: Worker, doing: map<nat, CallerPc>, rounds: map<nat, Round>) {
    exists c | c in doing :: doing[c].WillWake() && c in rounds && w in rounds[c].targets
  }

  /** Nobody who was told to terminate sleeps, unless the shutdown that told him will wake him. */
  ghost predicate Attended(at: map<Worker, WorkerPc>, flagged: set<Worker>, doing: map<nat, CallerPc>, rounds: map<nat, Round>) {
    forall w | w in flagged && Sleeps(w, at) :: Expected(w, doing, rounds)
  }

  /** A shutdown that has cleared the lists has left on them nothing of what it found. */
  ghost predicate Cleaned(doing: map<nat, CallerPc>, rounds: map<nat, Round>, roster: seq<Worker>, nodes: seq<Job>) {
    && (forall c | c in doing && (doing[c].Broadcast? || doing[c].ShutUnlock?) :: nodes == [])
    && Unlisted(doing, rounds, roster)
  }

  ghost predicate Unlisted(doing: map<nat, CallerPc>, rounds: map<nat, Round>, roster: seq<Worker>) {
    forall c | c in doing && (doing[c].ClearJobs? || doing[c].Broadcast? || doing[c].ShutUnlock?) ::
      c in rounds && forall w | w in roster :: w !in rounds[c].targets
  }

  /** What a proof needs to know besides the fields of the program. */
  datatype Ghost = Ghost(
    /** The waiting list, and the submission of each of its nodes. */
    nodes: seq<Job>, stack: seq<nat>,
    /** The list of workers, what next is in each record, and the records with terminate set. */
    roster: seq<Worker>, next: map<Worker, Worker?>, flagged: set<Worker>,
    /** Every submission so far, and the one each worker took last. */
    ledger: seq<Entry>, ticket: map<Worker, nat>,
    /** The calls of job_function so far, and the submission of each. */
    calls: seq<Job>, runs: seq<nat>,
    rounds: map<nat, Round>)

  /** Every job there may ever be, the head of the list of workers, who has jobs_mutex, and the threads: those that
      run worker_function, and those inside the other two functions. */
  datatype State = State(jobs: set<Job>, workers: Worker?, owner: Owner, at: map<Worker, WorkerPc>,
    doing: map<nat, CallerPc>, g: Ghost)

  ghost predicate Inv(s: State) {
    Core(s) && Attended(s.at, s.g.flagged, s.doing, s.g.rounds) && Cleaned(s.doing, s.g.rounds, s.g.roster, s.g.nodes)
  }

  ghost predicate Core(s: State) {
    && s.g.next.Keys == s.at.Keys
    && Stacked(s.g.ledger, s.g.stack, s.g.nodes) && Delivered(s.g.ledger, s.at, s.g.ticket)
    && Logged(s.g.ledger, s.g.calls, s.g.runs)
    && Excluded(s.owner, s.at, s.doing) && Seen(s.at, s.g.flagged, s.g.nodes == [])
    && Promised(s.doing, s.g.nodes, s.jobs)
    && Chain(s.g.roster, s.workers, 0, s.g.next) && Marked(s.doing, s.g.rounds, s.g.flagged, s.g.next)
    && Alert(s.g.nodes == [], s.at, s.doing, s.owner)
  }

  const START := Ghost([], [], [], map[], {}, [], map[], [], [], map[])

  /** After workqueue_init has cleared the queue. */
  function Start(jobs: set<Job>): State {
    State(jobs, null, Free, map[], map[], START)
  }

  /** One atomic step of one thread. */
  datatype Action =
    | StartWorker(w: Worker)
    | WorkerLock(w: Worker)         // pthread_mutex_lock, or the return from pthread_cond_wait
    | TestTheList(w: Worker)
    | TestTerminate(w: Worker)
    | Sleep(w: Worker)              // pthread_cond_wait: release the mutex and block
    | Wake(w: Worker)               // a wake-up without a signal, which pthread_cond_wait permits
    | TakeJob(w: Worker)
    | WorkerUnlock(w: Worker)
    | CallJob(w: Worker)
    | Return(w: Worker)             // job_function returns
    | Add(c: nat, job: Job)         // workqueue_add_job is called
    | Shutdown(c: nat)              // workqueue_shutdown is called
    | CallerLock(c: nat)
    | LinkJob(c: nat)
    | Signal(c: nat, woken: Worker?)
    | CallerUnlock(c: nat)
    | MarkOne(c: nat)
    | DropWorkers(c: nat)
    | DropJobs(c: nat)
    | WakeAll(c: nat)
  {
    predicate ByCaller() {
      Add? || Shutdown? || CallerLock? || LinkJob? || Signal? || CallerUnlock? || MarkOne? || DropWorkers? || DropJobs? || WakeAll?
    }
  }

  /** When a thread can take the step.  A caller promises not to add a job that is on the list or being added. */
  ghost predicate Enabled(s: State, a: Action) {
    match a
    case StartWorker(w) => w !in s.at
    case WorkerLock(w) => w in s.at && (s.at[w].Lock? || s.at[w].Woken?) && s.owner.Free?
    case TestTheList(w) => w in s.at && s.at[w].TestList?
    case TestTerminate(w) => w in s.at && (s.at[w].TestInner? || s.at[w].TestOuter?)
    case Sleep(w) => w in s.at && s.at[w].Wait?
    case Wake(w) => w in s.at && s.at[w].Asleep?
    case TakeJob(w) => w in s.at && s.at[w].Take?
    case WorkerUnlock(w) => w in s.at && s.at[w].Unlock?
    case CallJob(w) => w in s.at && s.at[w].Call?
    case Return(w) => w in s.at && s.at[w].Running?
    case Add(c, job) => c !in s.doing && job in s.jobs && job !in s.g.nodes
                        && forall d | d in s.doing && s.doing[d].Adds() :: s.doing[d].job != job
    case Shutdown(c) => c !in s.doing
    case CallerLock(c) => c in s.doing && (s.doing[c].AddLock? || s.doing[c].ShutLock?) && s.owner.Free?
    case LinkJob(c) => c in s.doing && s.doing[c].AddLink?
    case Signal(c, woken) => c in s.doing && s.doing[c].AddSignal?
                             && if woken == null then forall w | w in s.at :: !s.at[w].Asleep?
                                else woken in s.at && s.at[woken].Asleep?
    case CallerUnlock(c) => c in s.doing && (s.doing[c].AddUnlock? || s.doing[c].ShutUnlock?)
    case MarkOne(c) => c in s.doing && s.doing[c].Mark?
    case DropWorkers(c) => c in s.doing && s.doing[c].ClearWorkers?
    case DropJobs(c) => c in s.doing && s.doing[c].ClearJobs?
    case WakeAll(c) => c in s.doing && s.doing[c].Broadcast?
  }

  /** Worker w goes on at pc. */
  function Goes(s: State, w: Worker, pc: WorkerPc): State {
    s.(at := s.at[w := pc])
  }

  function Calls(s: State, c: nat, pc: CallerPc): State {
    s.(doing := s.doing[c := pc])
  }

  function Drop(ledger: seq<Entry>): (r: seq<Entry>)
    ensures |r| == |ledger|
    ensures forall t | 0 <= t < |r| :: r[t] == if ledger[t].place.Waiting? then Entry(ledger[t].job, Dropped) else ledger[t]
  {
    seq(|ledger|, t requires 0 <= t < |ledger| =>
      if ledger[t].place.Waiting? then Entry(ledger[t].job, Dropped) else ledger[t])
  }

  /** The head of the list is now with worker w. */
  function Pops(s: State, w: Worker): State
    requires s.g.nodes != [] && s.g.stack != [] && s.g.stack[0] < |s.g.ledger|
  {
    Goes(s, w, Unlock(s.g.nodes[0])).(g := s.g.(nodes := s.g.nodes[1..], stack := s.g.stack[1..],
      ledger := s.g.ledger[s.g.stack[0] := Entry(s.g.nodes[0], Taken(w))], ticket := s.g.ticket[w := s.g.stack[0]]))
  }

  function Runs(s: State, w: Worker, job: Job): State
    requires w in s.g.ticket && s.g.ticket[w] < |s.g.ledger|
  {
    Goes(s, w, Running(job)).(g := s.g.(calls := s.g.calls + [job], runs := s.g.runs + [s.g.ticket[w]],
      ledger := s.g.ledger[s.g.ticket[w] := Entry(job, Started(w))]))
  }

  function Ends(s: State, w: Worker, job: Job): State
    requires w in s.g.ticket && s.g.ticket[w] < |s.g.ledger|
  {
    Goes(s, w, Lock).(g := s.g.(ledger := s.g.ledger[s.g.ticket[w] := Entry(job, Finished(w))]))
  }

  /** A new submission, at the head of the list. */
  function Pushes(s: State, c: nat, job: Job): State {
    Calls(s, c, AddSignal).(g := s.g.(nodes := [job] + s.g.nodes, stack := [|s.g.ledger|] + s.g.stack,
      ledger := s.g.ledger + [Entry(job, Waiting)]))
  }

  /** One more worker is told to terminate. */
  function Flags(s: State, c: nat, cursor: Worker): State
    requires cursor in s.g.next && c in s.g.rounds
  {
    Calls(s, c, Mark(s.g.next[cursor])).(g := s.g.(flagged := s.g.flagged + {cursor},
      rounds := s.g.rounds[c := s.g.rounds[c].(marked := s.g.rounds[c].marked + 1)]))
  }

  /** What each step does. */
  ghost function Perform(s: State, a: Action): State
    requires Inv(s) && Enabled(s, a)
  {
    hide Stacked, Delivered, Logged, Excluded, Seen, Promised, Chain, Marked, Alert;
    match a
    case StartWorker(w) =>
      Goes(s, w, Lock).(workers := w, g := s.g.(roster := [w] + s.g.roster, next := s.g.next[w := s.workers],
        flagged := s.g.flagged - {w}))
    case WorkerLock(w) => Goes(s, w, TestList).(owner := ByWorker(w))
    case TestTheList(w) => Goes(s, w, if s.g.nodes == [] then TestInner else TestOuter)
    case TestTerminate(w) =>
      if s.at[w].TestInner? then Goes(s, w, if w in s.g.flagged then TestOuter else Wait)
      else Goes(s, w, if w in s.g.flagged then Exited else Take)
    case Sleep(w) => Goes(s, w, Asleep).(owner := Free)
    case Wake(w) => Goes(s, w, Woken)
    case TakeJob(w) =>
      Busy(s, w);
      Pops(s, w)
    case WorkerUnlock(w) => Goes(s, w, Call(s.at[w].job)).(owner := Free)
    case CallJob(w) =>
      CarriedAt(w, s.at, s.g.ledger, s.g.ticket);
      Runs(s, w, s.at[w].job)
    case Return(w) =>
      CarriedAt(w, s.at, s.g.ledger, s.g.ticket);
      Ends(s, w, s.at[w].job)
    case Add(c, job) => Calls(s, c, AddLock(job))
    case Shutdown(c) => Calls(s, c, Mark(s.workers)).(g := s.g.(rounds := s.g.rounds[c := Round(s.g.roster, 0)]))
    case CallerLock(c) =>
      Calls(s, c, if s.doing[c].ShutLock? then ClearWorkers else AddLink(s.doing[c].job)).(owner := ByCaller(c))
    case LinkJob(c) =>
      Pushes(s, c, s.doing[c].job)
    case Signal(c, woken) =>
      var r := Calls(s, c, AddUnlock);
      if woken == null then r else Goes(r, woken, Woken)
    case CallerUnlock(c) => s.(doing := s.doing - {c}, owner := Free)
    case MarkOne(c) =>
      RoundOf(c, s.doing, s.g.rounds, s.g.flagged, s.g.next);
      if s.doing[c].cursor == null then Calls(s, c, ShutLock) else Flags(s, c, s.doing[c].cursor)
    case DropWorkers(c) => Calls(s, c, ClearJobs).(workers := null, g := s.g.(roster := []))
    case DropJobs(c) => Calls(s, c, Broadcast).(g := s.g.(nodes := [], stack := [], ledger := Drop(s.g.ledger)))
    case WakeAll(c) =>
      Calls(s, c, ShutUnlock).(at := map w | w in s.at :: if s.at[w].Asleep? then Woken else s.at[w])
  }

  lemma Busy(s: State, w: Worker)
    requires Inv(s) && w in s.at && s.at[w].Take?
    ensures s.g.nodes != [] && s.g.stack != [] && s.g.stack[0] < |s.g.ledger|
  {
  }

  lemma RoundOf(c: nat, doing: map<nat, CallerPc>, rounds: map<nat, Round>, flagged: set<Worker>,
      next: map<Worker, Worker?>)
    requires Marked(doing, rounds, flagged, next) && c in doing && doing[c].Mark?
    ensures c in rounds && rounds[c].marked <= |rounds[c].targets|
    ensures doing[c].cursor == if rounds[c].marked < |rounds[c].targets| then rounds[c].targets[rounds[c].marked] else null
    ensures doing[c].cursor != null ==> doing[c].cursor in next
  {
  }

  /** A worker moves on, without touching the list or a submission. */
  lemma WorkerMoves(w: Worker, pc: WorkerPc, owner: Owner, after: Owner, at: map<Worker, WorkerPc>,
      doing: map<nat, CallerPc>, flagged: set<Worker>, empty: bool, ledger: seq<Entry>, ticket: map<Worker, nat>)
    requires Excluded(owner, at, doing) && Seen(at, flagged, empty) && Delivered(ledger, at, ticket)
    requires Alert(empty, at, doing, owner)
    requires w in at && (pc.Holds() <==> after == ByWorker(w))
    requires after != owner ==> (owner == Free || owner == ByWorker(w)) && (after == Free || after == ByWorker(w))
    requires pc.TestInner? || pc.Wait? || pc.Asleep? ==> empty
    requires pc.Take? || (pc.TestOuter? && w !in flagged) ==> !empty
    requires pc.Exited? ==> w in flagged
    requires pc.Carries() == at[w].Carries()
    requires pc.Carries() ==> pc.job == at[w].job && pc.Running? == at[w].Running?
    ensures Excluded(after, at[w := pc], doing) && Seen(at[w := pc], flagged, empty)
    ensures Delivered(ledger, at[w := pc], ticket) && Alert(empty, at[w := pc], doing, after)
  {
    MovesExcluded(w, pc, owner, after, at, doing);
    MovesSeen(w, pc, at, flagged, empty);
    MovesDelivered(w, pc, at, ledger, ticket);
    MovesAlert(w, pc, owner, after, at, doing, empty);
  }

  lemma MovesExcluded(w: Worker, pc: WorkerPc, owner: Owner, after: Owner, at: map<Worker, WorkerPc>,
      doing: map<nat, CallerPc>)
    requires Excluded(owner, at, doing)
    requires w in at && (pc.Holds() <==> after == ByWorker(w))
    requires after != owner ==> (owner == Free || owner == ByWorker(w)) && (after == Free || after == ByWorker(w))
    ensures Excluded(after, at[w := pc], doing)
  {
  }

  lemma MovesSeen(w: Worker, pc: WorkerPc, at: map<Worker, WorkerPc>, flagged: set<Worker>, empty: bool)
    requires Seen(at, flagged, empty) && w in at
    requires pc.TestInner? || pc.Wait? ==> empty
    requires pc.Take? || (pc.TestOuter? && w !in flagged) ==> !empty
    requires pc.Exited? ==> w in flagged
    ensures Seen(at[w := pc], flagged, empty)
  {
  }

  lemma MovesDelivered(w: Worker, pc: WorkerPc, at: map<Worker, WorkerPc>, ledger: seq<Entry>, ticket: map<Worker, nat>)
    requires Delivered(ledger, at, ticket) && w in at
    requires pc.Carries() == at[w].Carries()
    requires pc.Carries() ==> pc.job == at[w].job && pc.Running? == at[w].Running?
    ensures Delivered(ledger, at[w := pc], ticket)
  {
    var moved := at[w := pc];
    forall t | 0 <= t < |ledger| && (ledger[t].place.Taken? || ledger[t].place.Started?)
      ensures var v := ledger[t].place.worker; v in moved && moved[v].Carries() && v in ticket && ticket[v] == t
    {
    }
  }

  lemma MovesAlert(w: Worker, pc: WorkerPc, owner: Owner, after: Owner, at: map<Worker, WorkerPc>,
      doing: map<nat, CallerPc>, empty: bool)
    requires Alert(empty, at, doing, owner) && w in at
    requires pc.Holds() <==> after == ByWorker(w)
    requires pc.Asleep? ==> empty
    ensures Alert(empty, at[w := pc], doing, after)
  {
    assert pc.Asleep? || pc.Exited? || Awake(w, at[w := pc]);
  }

  lemma Holder(w: Worker, owner: Owner, at: map<Worker, WorkerPc>, doing: map<nat, CallerPc>)
    requires Excluded(owner, at, doing) && w in at
    ensures at[w].Holds() <==> owner == ByWorker(w)
  {
  }

  lemma SeenAt(w: Worker, at: map<Worker, WorkerPc>, flagged: set<Worker>, empty: bool)
    requires Seen(at, flagged, empty) && w in at
    ensures at[w].TestInner? || at[w].Wait? ==> empty
    ensures at[w].Take? || (at[w].TestOuter? && w !in flagged) ==> !empty
  {
  }

  lemma CarriedAt(w: Worker, at: map<Worker, WorkerPc>, ledger: seq<Entry>, ticket: map<Worker, nat>)
    requires Delivered(ledger, at, ticket) && w in at && at[w].Carries()
    ensures at[w].job != null && w in ticket && ticket[w] < |ledger|
    ensures ledger[ticket[w]] == Entry(at[w].job, if at[w].Running? then Started(w) else Taken(w))
  {
  }

  /** Worker w moves on, and so does its submission t. */
  lemma MovesSubmission(w: Worker, pc: WorkerPc, t: nat, place: Place, at: map<Worker, WorkerPc>, ledger: seq<Entry>,
      ticket: map<Worker, nat>)
    requires Delivered(ledger, at, ticket) && w in at && t < |ledger|
    requires if at[w].Carries() then w in ticket && ticket[w] == t else ledger[t].place.Waiting?
    requires if pc.Carries() then pc.job == ledger[t].job && place == (if pc.Running? then Started(w) else Taken(w))
             else place == Finished(w)
    ensures Delivered(ledger[t := Entry(ledger[t].job, place)], at[w := pc], ticket[w := t])
  {
    var after, moved, now := ledger[t := Entry(ledger[t].job, place)], at[w := pc], ticket[w := t];
    forall v | v in moved && moved[v].Carries()
      ensures v in now && now[v] < |after| && moved[v].job == after[now[v]].job
      ensures after[now[v]] == Entry(after[now[v]].job, if moved[v].Running? then Started(v) else Taken(v))
    {
      if v != w {
        CarriedAt(v, at, ledger, ticket);
      }
    }
    forall u | 0 <= u < |after| && (after[u].place.Taken? || after[u].place.Started?)
      ensures var v := after[u].place.worker; v in moved && moved[v].Carries() && v in now && now[v] == u
    {
    }
  }

  lemma KeepsStacked(t: nat, place: Place, ledger: seq<Entry>, stack: seq<nat>, nodes: seq<Job>)
    requires Stacked(ledger, stack, nodes) && t < |ledger|
    requires !ledger[t].place.Waiting? && !place.Waiting?
    ensures Stacked(ledger[t := Entry(ledger[t].job, place)], stack, nodes)
  {
  }

  lemma PopsStacked(place: Place, ledger: seq<Entry>, stack: seq<nat>, nodes: seq<Job>)
    requires Stacked(ledger, stack, nodes) && nodes != [] && !place.Waiting?
    ensures stack != [] && stack[0] < |ledger| && ledger[stack[0]] == Entry(nodes[0], Waiting)
    ensures Stacked(ledger[stack[0] := Entry(nodes[0], place)], stack[1..], nodes[1..])
  {
    var after := ledger[stack[0] := Entry(nodes[0], place)];
    forall t | 0 <= t < |after| && after[t].place.Waiting?
      ensures t in stack[1..]
    {
      assert t in stack && t != stack[0];
    }
  }

  lemma KeepsLogged(t: nat, place: Place, ledger: seq<Entry>, calls: seq<Job>, runs: seq<nat>)
    requires Logged(ledger, calls, runs) && t < |ledger|
    requires (place.Started? || place.Finished?) == (ledger[t].place.Started? || ledger[t].place.Finished?)
    ensures Logged(ledger[t := Entry(ledger[t].job, place)], calls, runs)
  {
  }

  lemma LogsCall(t: nat, place: Place, ledger: seq<Entry>, calls: seq<Job>, runs: seq<nat>)
    requires Logged(ledger, calls, runs) && t < |ledger| && ledger[t].place.Taken? && place.Started?
    ensures Logged(ledger[t := Entry(ledger[t].job, place)], calls + [ledger[t].job], runs + [t])
  {
    var after := ledger[t := Entry(ledger[t].job, place)];
    forall u | 0 <= u < |after| && (after[u].place.Started? || after[u].place.Finished?)
      ensures u in runs + [t]
    {
      assert u == t || u in runs;
    }
  }

  /** The holder of the mutex takes the head: nobody else relies on what is left of the list. */
  lemma PopsSeen(w: Worker, pc: WorkerPc, owner: Owner, at: map<Worker, WorkerPc>, doing: map<nat, CallerPc>,
      flagged: set<Worker>, nodes: seq<Job>)
    requires Excluded(owner, at, doing) && Seen(at, flagged, nodes == []) && w in at && at[w].Holds() && nodes != []
    requires pc.Unlock?
    ensures Seen(at[w := pc], flagged, nodes[1..] == [])
    ensures Alert(nodes[1..] == [], at[w := pc], doing, owner)
  {
    assert Awake(w, at[w := pc]);
  }

  lemma PopsPromised(doing: map<nat, CallerPc>, nodes: seq<Job>, jobs: set<Job>)
    requires Promised(doing, nodes, jobs) && nodes != []
    ensures Promised(doing, nodes[1..], jobs)
  {
  }

  lemma StartsExcluded(w: Worker, owner: Owner, at: map<Worker, WorkerPc>, doing: map<nat, CallerPc>)
    requires Excluded(owner, at, doing) && w !in at
    ensures Excluded(owner, at[w := Lock], doing)
  {
  }

  lemma StartsSeen(w: Worker, at: map<Worker, WorkerPc>, flagged: set<Worker>, empty: bool)
    requires Seen(at, flagged, empty) && w !in at
    ensures Seen(at[w := Lock], flagged - {w}, empty)
  {
  }

  lemma StartsDelivered(w: Worker, at: map<Worker, WorkerPc>, ledger: seq<Entry>, ticket: map<Worker, nat>)
    requires Delivered(ledger, at, ticket) && w !in at
    ensures Delivered(ledger, at[w := Lock], ticket)
  {
    var started := at[w := Lock];
    forall t | 0 <= t < |ledger| && (ledger[t].place.Taken? || ledger[t].place.Started?)
      ensures var v := ledger[t].place.worker; v in started && started[v].Carries() && v in ticket && ticket[v] == t
    {
    }
  }

  lemma StartsAlert(w: Worker, owner: Owner, at: map<Worker, WorkerPc>, doing: map<nat, CallerPc>, empty: bool)
    requires Alert(empty, at, doing, owner)
    ensures Alert(empty, at[w := Lock], doing, owner)
  {
    assert Awake(w, at[w := Lock]);
  }

  lemma StartsChain(w: Worker, roster: seq<Worker>, workers: Worker?, next: map<Worker, Worker?>)
    requires Chain(roster, workers, 0, next) && w !in next
    ensures Chain([w] + roster, w, 0, next[w := workers])
  {
    var list := [w] + roster;
    forall i {:trigger list[i]} | 0 < i < |list|
      ensures list[i - 1] in next[w := workers] && next[w := workers][list[i - 1]] == list[i]
    {
      if i > 1 {
        assert list[i - 1] == roster[i - 2] && list[i] == roster[i - 1];
        assert next[roster[(i - 1) - 1]] == roster[i - 1];
      }
    }
    if roster != [] {
      assert list[|list| - 1] == roster[|roster| - 1];
    }
  }

  lemma StartsMarked(w: Worker, workers: Worker?, doing: map<nat, CallerPc>, rounds: map<nat, Round>, flagged: set<Worker>,
      next: map<Worker, Worker?>)
    requires Marked(doing, rounds, flagged, next) && w !in next
    ensures Marked(doing, rounds, flagged - {w}, next[w := workers])
  {
  }

  lemma TakesHead(w: Worker, owner: Owner, at: map<Worker, WorkerPc>, doing: map<nat, CallerPc>, flagged: set<Worker>,
      nodes: seq<Job>, ledger: seq<Entry>, stack: seq<nat>, ticket: map<Worker, nat>, calls: seq<Job>, runs: seq<nat>,
      jobs: set<Job>)
    requires Stacked(ledger, stack, nodes) && Delivered(ledger, at, ticket) && Logged(ledger, calls, runs)
    requires Excluded(owner, at, doing) && Seen(at, flagged, nodes == []) && Promised(doing, nodes, jobs)
    requires w in at && at[w].Take?
    ensures nodes != [] && stack != [] && stack[0] < |ledger|
    ensures var after, went := ledger[stack[0] := Entry(nodes[0], Taken(w))], at[w := Unlock(nodes[0])];
      && Stacked(after, stack[1..], nodes[1..]) && Delivered(after, went, ticket[w := stack[0]])
      && Logged(after, calls, runs) && Excluded(owner, went, doing) && Seen(went, flagged, nodes[1..] == [])
      && Promised(doing, nodes[1..], jobs) && Alert(nodes[1..] == [], went, doing, owner)
  {
    hide Stacked, Delivered, Logged, Excluded, Seen, Promised, Chain, Marked, Alert;
    Holder(w, owner, at, doing);
    SeenAt(w, at, flagged, nodes == []);
    PopsStacked(Taken(w), ledger, stack, nodes);
    MovesSubmission(w, Unlock(nodes[0]), stack[0], Taken(w), at, ledger, ticket);
    KeepsLogged(stack[0], Taken(w), ledger, calls, runs);
    MovesExcluded(w, Unlock(nodes[0]), owner, owner, at, doing);
    PopsSeen(w, Unlock(nodes[0]), owner, at, doing, flagged, nodes);
    PopsPromised(doing, nodes, jobs);
  }

  /** The steps of a worker that neither take nor run a job. */
  lemma WorkerKeeps(s: State, a: Action)
    requires Inv(s) && Enabled(s, a)
    requires a.WorkerLock? || a.TestTheList? || a.TestTerminate? || a.Sleep? || a.Wake? || a.WorkerUnlock?
    ensures Core(Perform(s, a))
  {
    hide Stacked, Delivered, Logged, Excluded, Seen, Promised, Chain, Marked, Alert;
    var w, r := a.w, Perform(s, a);
    Holder(w, s.owner, s.at, s.doing);
    SeenAt(w, s.at, s.g.flagged, s.g.nodes == []);
    if a.WorkerUnlock? {
      CarriedAt(w, s.at, s.g.ledger, s.g.ticket);
    }
    WorkerMoves(w, r.at[w], s.owner, r.owner, s.at, s.doing, s.g.flagged, s.g.nodes == [], s.g.ledger, s.g.ticket);
  }

  lemma StartKeeps(s: State, w: Worker)
    requires Inv(s) && Enabled(s, StartWorker(w))
    ensures Core(Perform(s, StartWorker(w)))
  {
    hide Stacked, Delivered, Logged, Excluded, Seen, Promised, Chain, Marked, Alert;
    StartsExcluded(w, s.owner, s.at, s.doing);
    StartsSeen(w, s.at, s.g.flagged, s.g.nodes == []);
    StartsDelivered(w, s.at, s.g.ledger, s.g.ticket);
    StartsAlert(w, s.owner, s.at, s.doing, s.g.nodes == []);
    StartsChain(w, s.g.roster, s.workers, s.g.next);
    StartsMarked(w, s.workers, s.doing, s.g.rounds, s.g.flagged, s.g.next);
  }

  lemma TakeKeeps(s: State, w: Worker)
    requires Inv(s) && Enabled(s, TakeJob(w))
    ensures Core(Perform(s, TakeJob(w)))
  {
    hide Stacked, Delivered, Logged, Excluded, Seen, Promised, Chain, Marked, Alert;
    TakesHead(w, s.owner, s.at, s.doing, s.g.flagged, s.g.nodes, s.g.ledger, s.g.stack, s.g.ticket, s.g.calls, s.g.runs,
      s.jobs);
  }

  lemma JobKeeps(s: State, a: Action)
    requires Inv(s) && Enabled(s, a) && (a.CallJob? || a.Return?)
    ensures Core(Perform(s, a))
  {
    hide Stacked, Delivered, Logged, Excluded, Seen, Promised, Chain, Marked, Alert;
    var w, r := a.w, Perform(s, a);
    CarriedAt(w, s.at, s.g.ledger, s.g.ticket);
    var t, place := s.g.ticket[w], if a.CallJob? then Started(w) else Finished(w);
    Holder(w, s.owner, s.at, s.doing);
    MovesExcluded(w, r.at[w], s.owner, s.owner, s.at, s.doing);
    MovesSeen(w, r.at[w], s.at, s.g.flagged, s.g.nodes == []);
    MovesAlert(w, r.at[w], s.owner, s.owner, s.at, s.doing, s.g.nodes == []);
    MovesSubmission(w, r.at[w], t, place, s.at, s.g.ledger, s.g.ticket);
    KeepsStacked(t, place, s.g.ledger, s.g.stack, s.g.nodes);
    assert s.g.ticket[w := t] == s.g.ticket;
    if a.CallJob? {
      LogsCall(t, place, s.g.ledger, s.g.calls, s.g.runs);
    } else {
      KeepsLogged(t, place, s.g.ledger, s.g.calls, s.g.runs);
    }
  }

  /** A caller moves on. */
  lemma CallsExcluded(c: nat, pc: CallerPc, owner: Owner, after: Owner, at: map<Worker, WorkerPc>,
      doing: map<nat, CallerPc>)
    requires Excluded(owner, at, doing)
    requires pc.Holds() <==> after == ByCaller(c)
    requires after != owner ==> (owner == Free || owner == ByCaller(c)) && (after == Free || after == ByCaller(c))
    ensures Excluded(after, at, doing[c := pc])
  {
  }

  lemma EndsExcluded(c: nat, at: map<Worker, WorkerPc>, doing: map<nat, CallerPc>)
    requires Excluded(ByCaller(c), at, doing)
    ensures Excluded(Free, at, doing - {c})
  {
  }

  lemma CallsPromised(c: nat, pc: CallerPc, doing: map<nat, CallerPc>, nodes: seq<Job>, jobs: set<Job>)
    requires Promised(doing, nodes, jobs)
    requires pc.Adds() ==> pc.job in jobs && pc.job !in nodes
    requires pc.Adds() ==> forall d | d in doing && d != c && doing[d].Adds() :: doing[d].job != pc.job
    ensures Promised(doing[c := pc], nodes, jobs)
  {
  }

  lemma CallsMarked(c: nat, pc: CallerPc, doing: map<nat, CallerPc>, rounds: map<nat, Round>, flagged: set<Worker>,
      next: map<Worker, Worker?>)
    requires Marked(doing, rounds, flagged, next)
    requires pc.Marks() ==> !pc.Mark? && c in doing && doing[c].Marks() && !doing[c].Mark?
    ensures Marked(doing[c := pc], rounds, flagged, next)
  {
  }

  lemma CallsAlert(c: nat, pc: CallerPc, owner: Owner, after: Owner, at: map<Worker, WorkerPc>,
      doing: map<nat, CallerPc>, empty: bool)
    requires Alert(empty, at, doing, owner) && (c in doing ==> !doing[c].AddSignal?)
    requires after != owner ==> owner == Free || owner == ByCaller(c)
    ensures Alert(empty, at, doing[c := pc], after)
  {
  }

  /** The steps of a caller that touch neither list nor a flag. */
  lemma CallerKeeps(s: State, a: Action)
    requires Inv(s) && Enabled(s, a)
    requires a.Add? || a.CallerLock? || a.DropWorkers?
    ensures Core(Perform(s, a))
  {
    hide Stacked, Delivered, Logged, Excluded, Seen, Promised, Marked, Alert;
    var c, r := a.c, Perform(s, a);
    Caller(c, s.owner, s.at, s.doing);
    PromisedAt(c, s.doing, s.g.nodes, s.jobs);
    CallsExcluded(c, r.doing[c], s.owner, r.owner, s.at, s.doing);
    CallsPromised(c, r.doing[c], s.doing, s.g.nodes, s.jobs);
    CallsAlert(c, r.doing[c], s.owner, r.owner, s.at, s.doing, s.g.nodes == []);
    CallsMarked(c, r.doing[c], s.doing, s.g.rounds, s.g.flagged, s.g.next);
  }

  lemma Caller(c: nat, owner: Owner, at: map<Worker, WorkerPc>, doing: map<nat, CallerPc>)
    requires Excluded(owner, at, doing)
    ensures if c in doing then doing[c].Holds() <==> owner == ByCaller(c) else owner != ByCaller(c)
  {
  }

  lemma PromisedAt(c: nat, doing: map<nat, CallerPc>, nodes: seq<Job>, jobs: set<Job>)
    requires Promised(doing, nodes, jobs)
    ensures c in doing && doing[c].Adds() ==> doing[c].job in jobs && doing[c].job !in nodes
    ensures c in doing && doing[c].Adds() ==>
              forall d | d in doing && d != c && doing[d].Adds() :: doing[d].job != doing[c].job
  {
  }

  lemma UnlockKeeps(s: State, c: nat)
    requires Inv(s) && Enabled(s, CallerUnlock(c))
    ensures Core(Perform(s, CallerUnlock(c)))
  {
    hide Stacked, Delivered, Logged, Excluded, Seen, Chain;
    Caller(c, s.owner, s.at, s.doing);
    EndsExcluded(c, s.at, s.doing);
  }

  lemma SignalKeeps(s: State, c: nat, woken: Worker?)
    requires Inv(s) && Enabled(s, Signal(c, woken))
    ensures Core(Perform(s, Signal(c, woken)))
  {
    hide Stacked, Delivered, Logged, Excluded, Seen, Promised, Chain, Marked, Alert;
    Caller(c, s.owner, s.at, s.doing);
    CallsExcluded(c, AddUnlock, s.owner, s.owner, s.at, s.doing);
    CallsPromised(c, AddUnlock, s.doing, s.g.nodes, s.jobs);
    CallsMarked(c, AddUnlock, s.doing, s.g.rounds, s.g.flagged, s.g.next);
    SignalAlert(c, woken, s.owner, s.at, s.doing, s.g.nodes == []);
    if woken != null {
      Holder(woken, s.owner, s.at, s.doing);
      MovesExcluded(woken, Woken, s.owner, s.owner, s.at, s.doing[c := AddUnlock]);
      MovesSeen(woken, Woken, s.at, s.g.flagged, s.g.nodes == []);
      MovesDelivered(woken, Woken, s.at, s.g.ledger, s.g.ticket);
    }
  }

  /** Either a sleeper is woken, or everybody is up. */
  lemma SignalAlert(c: nat, woken: Worker?, owner: Owner, at: map<Worker, WorkerPc>, doing: map<nat, CallerPc>,
      empty: bool)
    requires Excluded(owner, at, doing) && owner == ByCaller(c)
    requires if woken == null then forall w | w in at :: !at[w].Asleep? else woken in at
    ensures Alert(empty, if woken == null then at else at[woken := Woken], doing[c := AddUnlock], owner)
  {
    if woken != null {
      assert Awake(woken, at[woken := Woken]);
    } else if at != map[] {
      assert at.Keys != {};
      var w :| w in at;
      Holder(w, owner, at, doing);
      assert Awake(w, at);
    }
  }

  lemma LinkKeeps(s: State, c: nat)
    requires Inv(s) && Enabled(s, LinkJob(c))
    ensures Core(Perform(s, LinkJob(c)))
  {
    hide Stacked, Delivered, Logged, Excluded, Seen, Promised, Chain, Marked, Alert;
    var job := s.doing[c].job;
    Caller(c, s.owner, s.at, s.doing);
    PushesList(job, s.g.ledger, s.g.stack, s.g.nodes, s.at, s.g.ticket, s.g.calls, s.g.runs);
    PushesPromised(c, s.doing, s.g.nodes, s.jobs);
    CallsExcluded(c, AddSignal, s.owner, s.owner, s.at, s.doing);
    CallsMarked(c, AddSignal, s.doing, s.g.rounds, s.g.flagged, s.g.next);
    Unseen(c, s.at, s.doing, s.g.flagged, s.g.nodes == [], false);
    PushesAlert(c, s.at, s.doing);
  }

  lemma PushesList(job: Job, ledger: seq<Entry>, stack: seq<nat>, nodes: seq<Job>, at: map<Worker, WorkerPc>,
      ticket: map<Worker, nat>, calls: seq<Job>, runs: seq<nat>)
    requires Stacked(ledger, stack, nodes) && Delivered(ledger, at, ticket) && Logged(ledger, calls, runs)
    ensures var after := ledger + [Entry(job, Waiting)];
      Stacked(after, [|ledger|] + stack, [job] + nodes) && Delivered(after, at, ticket) && Logged(after, calls, runs)
  {
    var after := ledger + [Entry(job, Waiting)];
    forall t | 0 <= t < |after| && after[t].place.Waiting?
      ensures t in [|ledger|] + stack
    {
      assert t == |ledger| || t in stack;
    }
    forall t | 0 <= t < |after| && (after[t].place.Taken? || after[t].place.Started?)
      ensures var v := after[t].place.worker; v in at && at[v].Carries() && v in ticket && ticket[v] == t
    {
      assert after[t] == ledger[t];
    }
  }

  lemma PushesPromised(c: nat, doing: map<nat, CallerPc>, nodes: seq<Job>, jobs: set<Job>)
    requires Promised(doing, nodes, jobs) && c in doing && doing[c].Adds()
    ensures Promised(doing[c := AddSignal], [doing[c].job] + nodes, jobs)
  {
  }

  lemma PushesAlert(c: nat, at: map<Worker, WorkerPc>, doing: map<nat, CallerPc>)
    ensures Alert(false, at, doing[c := AddSignal], ByCaller(c))
  {
  }

  /** While a caller has the mutex, no worker relies on what it has seen of the list. */
  lemma Unseen(c: nat, at: map<Worker, WorkerPc>, doing: map<nat, CallerPc>, flagged: set<Worker>, empty: bool,
      after: bool)
    requires Excluded(ByCaller(c), at, doing) && Seen(at, flagged, empty)
    ensures Seen(at, flagged, after)
  {
  }

  lemma DropKeeps(s: State, c: nat)
    requires Inv(s) && Enabled(s, DropJobs(c))
    ensures Core(Perform(s, DropJobs(c)))
  {
    hide Stacked, Delivered, Logged, Excluded, Seen, Promised, Chain, Marked, Alert;
    Caller(c, s.owner, s.at, s.doing);
    DropsList(s.g.ledger, s.g.stack, s.g.nodes, s.at, s.g.ticket, s.g.calls, s.g.runs);
    CallsPromised(c, Broadcast, s.doing, s.g.nodes, s.jobs);
    DropsPromised(s.doing[c := Broadcast], s.g.nodes, s.jobs);
    CallsExcluded(c, Broadcast, s.owner, s.owner, s.at, s.doing);
    CallsMarked(c, Broadcast, s.doing, s.g.rounds, s.g.flagged, s.g.next);
    Unseen(c, s.at, s.doing, s.g.flagged, s.g.nodes == [], true);
    EmptyAlert(s.at, s.doing[c := Broadcast], s.owner);
  }

  lemma DropsList(ledger: seq<Entry>, stack: seq<nat>, nodes: seq<Job>, at: map<Worker, WorkerPc>,
      ticket: map<Worker, nat>, calls: seq<Job>, runs: seq<nat>)
    requires Stacked(ledger, stack, nodes) && Delivered(ledger, at, ticket) && Logged(ledger, calls, runs)
    ensures Stacked(Drop(ledger), [], []) && Delivered(Drop(ledger), at, ticket) && Logged(Drop(ledger), calls, runs)
  {
    var after := Drop(ledger);
    forall t | 0 <= t < |after| && (after[t].place.Taken? || after[t].place.Started?)
      ensures var v := after[t].place.worker; v in at && at[v].Carries() && v in ticket && ticket[v] == t
    {
      assert after[t] == ledger[t];
    }
    forall t | 0 <= t < |after| && (after[t].place.Started? || after[t].place.Finished?)
      ensures t in runs
    {
      assert after[t] == ledger[t];
    }
  }

  lemma DropsPromised(doing: map<nat, CallerPc>, nodes: seq<Job>, jobs: set<Job>)
    requires Promised(doing, nodes, jobs)
    ensures Promised(doing, [], jobs)
  {
  }

  lemma EmptyAlert(at: map<Worker, WorkerPc>, doing: map<nat, CallerPc>, owner: Owner)
    ensures Alert(true, at, doing, owner)
  {
  }

  lemma WakeAllKeeps(s: State, c: nat)
    requires Inv(s) && Enabled(s, WakeAll(c))
    ensures Core(Perform(s, WakeAll(c)))
  {
    hide Stacked, Delivered, Logged, Excluded, Seen, Promised, Chain, Marked, Alert;
    var r := Perform(s, WakeAll(c));
    Caller(c, s.owner, s.at, s.doing);
    CallsExcluded(c, ShutUnlock, s.owner, s.owner, s.at, s.doing);
    CallsPromised(c, ShutUnlock, s.doing, s.g.nodes, s.jobs);
    CallsMarked(c, ShutUnlock, s.doing, s.g.rounds, s.g.flagged, s.g.next);
    CallsAlert(c, ShutUnlock, s.owner, s.owner, s.at, s.doing, s.g.nodes == []);
    WakesAll(s.at, r.at, s.owner, r.doing, s.g.flagged, s.g.nodes == [], s.g.ledger, s.g.ticket);
    assert r.at.Keys == s.at.Keys;
  }

  lemma WakesAll(at: map<Worker, WorkerPc>, up: map<Worker, WorkerPc>, owner: Owner, doing: map<nat, CallerPc>,
      flagged: set<Worker>, empty: bool, ledger: seq<Entry>, ticket: map<Worker, nat>)
    requires Excluded(owner, at, doing) && Seen(at, flagged, empty) && Delivered(ledger, at, ticket)
    requires Alert(empty, at, doing, owner)
    requires up == map w | w in at :: if at[w].Asleep? then Woken else at[w]
    ensures Excluded(owner, up, doing) && Seen(up, flagged, empty) && Delivered(ledger, up, ticket)
    ensures Alert(empty, up, doing, owner)
  {
    if w :| w in at && Awake(w, at) {
      assert Awake(w, up);
    }
    forall t | 0 <= t < |ledger| && (ledger[t].place.Taken? || ledger[t].place.Started?)
      ensures var v := ledger[t].place.worker; v in up && up[v].Carries() && v in ticket && ticket[v] == t
    {
      assert ledger[t].place.worker in at;
    }
    assert at == map[] ==> up == map[];
  }

  lemma ShutdownKeeps(s: State, c: nat)
    requires Inv(s) && Enabled(s, Shutdown(c))
    ensures Core(Perform(s, Shutdown(c)))
  {
    hide Stacked, Delivered, Logged, Excluded, Seen, Promised, Alert;
    Caller(c, s.owner, s.at, s.doing);
    CallsExcluded(c, Mark(s.workers), s.owner, s.owner, s.at, s.doing);
    CallsPromised(c, Mark(s.workers), s.doing, s.g.nodes, s.jobs);
    CallsAlert(c, Mark(s.workers), s.owner, s.owner, s.at, s.doing, s.g.nodes == []);
  }

  lemma MarkKeeps(s: State, c: nat)
    requires Inv(s) && Enabled(s, MarkOne(c))
    ensures Core(Perform(s, MarkOne(c)))
  {
    hide Stacked, Delivered, Logged, Excluded, Promised, Chain, Marked, Alert;
    var r := Perform(s, MarkOne(c));
    Caller(c, s.owner, s.at, s.doing);
    RoundOf(c, s.doing, s.g.rounds, s.g.flagged, s.g.next);
    CallsExcluded(c, r.doing[c], s.owner, s.owner, s.at, s.doing);
    CallsPromised(c, r.doing[c], s.doing, s.g.nodes, s.jobs);
    CallsAlert(c, r.doing[c], s.owner, s.owner, s.at, s.doing, s.g.nodes == []);
    MarksMarked(c, s.doing, s.g.rounds, s.g.flagged, s.g.next);
  }

  lemma MarksMarked(c: nat, doing: map<nat, CallerPc>, rounds: map<nat, Round>, flagged: set<Worker>,
      next: map<Worker, Worker?>)
    requires Marked(doing, rounds, flagged, next) && c in doing && doing[c].Mark? && c in rounds
    ensures doing[c].cursor == null ==> Marked(doing[c := ShutLock], rounds, flagged, next)
    ensures doing[c].cursor != null ==> (
      && doing[c].cursor in next
      && Marked(doing[c := Mark(next[doing[c].cursor])], rounds[c := rounds[c].(marked := rounds[c].marked + 1)],
           flagged + {doing[c].cursor}, next))
  {
    var list, n := rounds[c].targets, rounds[c].marked;
    if n < |list| {
      assert next[list[n]] == if n + 1 < |list| then list[n + 1] else null by {
        if n + 1 < |list| {
          assert next[list[(n + 1) - 1]] == list[n + 1];
        }
      }
    }
  }

  /** Workers that sleep although they were told to terminate keep somebody who will wake them: those who slept
      before keep theirs, and a new one is found by the shutdown that has just told him. */
  lemma StepAttends(s: State, a: Action)
    requires Inv(s) && Enabled(s, a)
    ensures var r := Perform(s, a); Attended(r.at, r.g.flagged, r.doing, r.g.rounds)
  {
    hide Stacked, Delivered, Logged, Excluded, Seen, Promised, Chain, Marked, Alert, Cleaned, Perform, Attended;
    match a
    case MarkOne(c) => MarkAttends(s, c);
    case WakeAll(c) => WakeAttends(s, c);
    case _ => if a.ByCaller() { CallerAttends(s, a); } else { WorkerAttends(s, a); }
  }

  lemma WakeAttends(s: State, c: nat)
    requires Inv(s) && Enabled(s, WakeAll(c))
    ensures var r := Perform(s, WakeAll(c)); Attended(r.at, r.g.flagged, r.doing, r.g.rounds)
  {
    hide Stacked, Delivered, Logged, Excluded, Seen, Promised, Chain, Marked, Alert, Cleaned;
    var r := Perform(s, WakeAll(c));
    forall w | Sleeps(w, r.at) ensures false {
      Holder(w, s.owner, s.at, s.doing);
      Caller(c, s.owner, s.at, s.doing);
    }
  }

  lemma MarkAttends(s: State, c: nat)
    requires Inv(s) && Enabled(s, MarkOne(c))
    ensures var r := Perform(s, MarkOne(c)); Attended(r.at, r.g.flagged, r.doing, r.g.rounds)
  {
    hide Stacked, Delivered, Logged, Excluded, Seen, Promised, Chain, Marked, Alert, Cleaned;
    var r := Perform(s, MarkOne(c));
    RoundOf(c, s.doing, s.g.rounds, s.g.flagged, s.g.next);
    forall w | w in r.g.flagged && Sleeps(w, r.at) ensures Expected(w, r.doing, r.g.rounds) {
      if w in s.g.flagged {
        StaysExpected(w, s.doing, s.g.rounds, r.doing, r.g.rounds);
      } else {
        assert r.doing[c].WillWake() && w in r.g.rounds[c].targets;
      }
    }
  }

  lemma WorkerAttends(s: State, a: Action)
    requires Inv(s) && Enabled(s, a) && !a.ByCaller()
    ensures var r := Perform(s, a); Attended(r.at, r.g.flagged, r.doing, r.g.rounds)
  {
    hide Stacked, Delivered, Logged, Excluded, Seen, Promised, Chain, Marked, Alert, Cleaned, Expected;
    var r := Perform(s, a);
    assert r.doing == s.doing && r.g.rounds == s.g.rounds;
  }

  lemma CallerAttends(s: State, a: Action)
    requires Inv(s) && Enabled(s, a) && a.ByCaller() && !a.MarkOne? && !a.WakeAll?
    ensures var r := Perform(s, a); Attended(r.at, r.g.flagged, r.doing, r.g.rounds)
  {
    hide Stacked, Delivered, Logged, Excluded, Seen, Promised, Chain, Marked, Alert, Cleaned, Drop, Expected;
    var r := Perform(s, a);
    forall w | w in r.g.flagged && Sleeps(w, r.at) ensures Expected(w, r.doing, r.g.rounds) {
      StaysExpected(w, s.doing, s.g.rounds, r.doing, r.g.rounds);
    }
  }

  lemma StaysExpected(w: Worker, doing: map<nat, CallerPc>, rounds: map<nat, Round>, doing2: map<nat, CallerPc>,
      rounds2: map<nat, Round>)
    requires Expected(w, doing, rounds)
    requires forall c | c in doing && doing[c].WillWake() && c in rounds ::
               c in doing2 && doing2[c].WillWake() && c in rounds2 && rounds2[c].targets == rounds[c].targets
    ensures Expected(w, doing2, rounds2)
  {
    var c :| c in doing && doing[c].WillWake() && c in rounds && w in rounds[c].targets;
    assert c in doing2 && doing2[c].WillWake() && c in rounds2 && w in rounds2[c].targets;
  }

  lemma StepCleans(s: State, a: Action)
    requires Inv(s) && Enabled(s, a)
    ensures var r := Perform(s, a); Cleaned(r.doing, r.g.rounds, r.g.roster, r.g.nodes)
  {
    hide Inv, Enabled, Perform;
    JobsCleaned(s, a);
    WorkersCleaned(s, a);
  }

  lemma JobsCleaned(s: State, a: Action)
    requires Inv(s) && Enabled(s, a)
    ensures var r := Perform(s, a);
            forall c | c in r.doing && (r.doing[c].Broadcast? || r.doing[c].ShutUnlock?) :: r.g.nodes == []
  {
    hide Stacked, Delivered, Logged, Seen, Promised, Chain, Alert, Attended, Marked;
    if a.TakeJob? {
      Busy(s, a.w);
    } else if a.MarkOne? {
      RoundOf(a.c, s.doing, s.g.rounds, s.g.flagged, s.g.next);
    }
  }

  lemma WorkersCleaned(s: State, a: Action)
    requires Inv(s) && Enabled(s, a)
    ensures var r := Perform(s, a); Unlisted(r.doing, r.g.rounds, r.g.roster)
  {
    hide Stacked, Delivered, Logged, Seen, Promised, Chain, Alert, Attended;
    match a
    case StartWorker(w) => StartUnlisted(s, w);
    case MarkOne(c) => MarkUnlisted(s, c);
    case DropWorkers(c) => DropUnlisted(s, c);
    case Shutdown(c) => ShutdownUnlisted(s, c);
    case _ => SameUnlisted(s, a);
  }

  lemma StartUnlisted(s: State, w: Worker)
    requires Inv(s) && Enabled(s, StartWorker(w))
    ensures var r := Perform(s, StartWorker(w)); Unlisted(r.doing, r.g.rounds, r.g.roster)
  {
    hide Stacked, Delivered, Logged, Excluded, Seen, Promised, Chain, Alert, Attended;
  }

  lemma MarkUnlisted(s: State, c: nat)
    requires Inv(s) && Enabled(s, MarkOne(c))
    ensures var r := Perform(s, MarkOne(c)); Unlisted(r.doing, r.g.rounds, r.g.roster)
  {
    hide Stacked, Delivered, Logged, Excluded, Seen, Promised, Chain, Alert, Attended, Marked;
    RoundOf(c, s.doing, s.g.rounds, s.g.flagged, s.g.next);
  }

  lemma DropUnlisted(s: State, c: nat)
    requires Inv(s) && Enabled(s, DropWorkers(c))
    ensures var r := Perform(s, DropWorkers(c)); Unlisted(r.doing, r.g.rounds, r.g.roster)
  {
    hide Stacked, Delivered, Logged, Excluded, Seen, Promised, Chain, Alert, Attended;
  }

  lemma ShutdownUnlisted(s: State, c: nat)
    requires Inv(s) && Enabled(s, Shutdown(c))
    ensures var r := Perform(s, Shutdown(c)); Unlisted(r.doing, r.g.rounds, r.g.roster)
  {
    hide Stacked, Delivered, Logged, Excluded, Seen, Promised, Chain, Alert, Attended, Marked;
  }

  lemma SameUnlisted(s: State, a: Action)
    requires Inv(s) && Enabled(s, a) && !a.StartWorker? && !a.MarkOne? && !a.DropWorkers? && !a.Shutdown?
    ensures var r := Perform(s, a); Unlisted(r.doing, r.g.rounds, r.g.roster)
  {
    hide Stacked, Delivered, Logged, Excluded, Seen, Promised, Chain, Alert, Attended, Marked, Drop;
  }

  /** Every step keeps the invariant. */
  lemma StepKeeps(s: State, a: Action)
    requires Inv(s) && Enabled(s, a)
    ensures Inv(Perform(s, a))
  {
    hide Inv, Enabled, Perform, Core, Attended, Cleaned;
    StepAttends(s, a);
    StepCleans(s, a);
    Whole(Perform(s, a)) by { StepKeepsCore(s, a); }
  }

  lemma Whole(s: State)
    requires Core(s) && Attended(s.at, s.g.flagged, s.doing, s.g.rounds) && Cleaned(s.doing, s.g.rounds, s.g.roster, s.g.nodes)
    ensures Inv(s)
  {
  }

  lemma StepKeepsCore(s: State, a: Action)
    requires Inv(s) && Enabled(s, a)
    ensures Core(Perform(s, a))
  {
    hide Inv, Enabled, Perform, Core;
    match a
    case StartWorker(w) => StartKeeps(s, w);
    case WorkerLock(_) => WorkerKeeps(s, a);
    case TestTheList(_) => WorkerKeeps(s, a);
    case TestTerminate(_) => WorkerKeeps(s, a);
    case Sleep(_) => WorkerKeeps(s, a);
    case Wake(_) => WorkerKeeps(s, a);
    case TakeJob(w) => TakeKeeps(s, w);
    case WorkerUnlock(_) => WorkerKeeps(s, a);
    case CallJob(_) => JobKeeps(s, a);
    case Return(_) => JobKeeps(s, a);
    case Add(_, _) => CallerKeeps(s, a);
    case Shutdown(c) => ShutdownKeeps(s, c);
    case CallerLock(_) => CallerKeeps(s, a);
    case LinkJob(c) => LinkKeeps(s, c);
    case Signal(c, woken) => SignalKeeps(s, c, woken);
    case CallerUnlock(c) => UnlockKeeps(s, c);
    case MarkOne(c) => MarkKeeps(s, c);
    case DropWorkers(_) => CallerKeeps(s, a);
    case DropJobs(c) => DropKeeps(s, c);
    case WakeAll(c) => WakeAllKeeps(s, c);
  }

  /** Told to terminate, and not on the way to a job. */
  ghost predicate Doomed(w: Worker, s: State) {
    w in s.at && w in s.g.flagged && !s.at[w].Carries() && !s.at[w].Take?
  }

  /** Worker w has left its loop, with the mutex. */
  ghost predicate Left(w: Worker, s: State) {
    w in s.at && s.at[w].Exited? && s.owner == ByWorker(w)
  }

  /** What no run undoes.  Submissions move forward and calls are not forgotten; a worker that was told to terminate
      takes no further job; and once a worker has left its loop the list never changes again. */
  ghost predicate Progress(s: State, r: State) {
    && Extends(s.g.ledger, r.g.ledger) && s.g.calls <= r.g.calls
    && (forall w | w in s.at && Doomed(w, s) :: Doomed(w, r))
    && (forall w | w in s.at && Left(w, s) :: Left(w, r) && r.g.nodes == s.g.nodes && r.g.stack == s.g.stack)
  }

  lemma ProgressTrans(s: State, r: State, q: State)
    requires Progress(s, r) && Progress(r, q)
    ensures Progress(s, q)
  {
    ExtendsTrans(s.g.ledger, r.g.ledger, q.g.ledger);
  }

  /** No step undoes what no run may undo. */
  lemma StepProgresses(s: State, a: Action)
    requires Inv(s) && Enabled(s, a)
    ensures Progress(s, Perform(s, a))
  {
    hide Extends;
    var r := Perform(s, a);
    StepExtends(s, a);
    StepDooms(s, a);
    StepLeaves(s, a);
  }

  lemma StepExtends(s: State, a: Action)
    requires Inv(s) && Enabled(s, a)
    ensures Extends(s.g.ledger, Perform(s, a).g.ledger)
  {
    hide Stacked, Delivered, Logged, Excluded, Seen, Promised, Chain, Marked, Alert;
    if a.CallJob? || a.Return? {
      CarriedAt(a.w, s.at, s.g.ledger, s.g.ticket);
    } else if a.TakeJob? {
      Busy(s, a.w);
      PopsStacked(Taken(a.w), s.g.ledger, s.g.stack, s.g.nodes);
    }
  }

  lemma StepDooms(s: State, a: Action)
    requires Inv(s) && Enabled(s, a)
    ensures forall w | w in s.at && Doomed(w, s) :: Doomed(w, Perform(s, a))
  {
    hide Stacked, Delivered, Logged, Excluded, Seen, Promised, Chain, Marked, Alert;
  }

  lemma StepLeaves(s: State, a: Action)
    requires Inv(s) && Enabled(s, a)
    ensures forall w | w in s.at && Left(w, s) ::
              Left(w, Perform(s, a)) && Perform(s, a).g.nodes == s.g.nodes && Perform(s, a).g.stack == s.g.stack
  {
    hide Stacked, Delivered, Logged, Seen, Promised, Chain, Marked, Alert;
  }

  /** A run: the steps of any threads in any order. */
  ghost predicate Possible(s: State, run: seq<Action>)
    requires Inv(s)
    decreases |run|
  {
    run == [] || (Enabled(s, run[0]) && (StepKeeps(s, run[0]); Possible(Perform(s, run[0]), run[1..])))
  }

  ghost function After(s: State, run: seq<Action>): State
    requires Inv(s) && Possible(s, run)
    decreases |run|
  {
    if run == [] then s
    else
      StepKeeps(s, run[0]);
      After(Perform(s, run[0]), run[1..])
  }

  /** Every interleaving of any number of workers and callers. */
  lemma {:induction false} RunKeeps(s: State, run: seq<Action>)
    requires Inv(s) && Possible(s, run)
    ensures Inv(After(s, run)) && Progress(s, After(s, run))
    decreases |run|
  {
    hide Inv, Enabled, Perform, Progress;
    if run == [] {
      Same(s);
    } else {
      StepKeeps(s, run[0]);
      StepProgresses(s, run[0]);
      var r := Perform(s, run[0]);
      RunKeeps(r, run[1..]);
      ProgressTrans(s, r, After(r, run[1..]));
    }
  }

  lemma Same(s: State)
    ensures Progress(s, s)
  {
  }

  lemma StartHolds(jobs: set<Job>)
    ensures Inv(Start(jobs))
  {
  }

  /** The four places a submission can be. */
  ghost predicate Waits(s: State, t: nat) {
    t in s.g.stack
  }

  ghost predicate With(s: State, t: nat, w: Worker) {
    w in s.at && s.at[w].Carries() && w in s.g.ticket && s.g.ticket[w] == t
  }

  /** After every run, a submission is on the list, or with one worker, or it has been run, or a shutdown dropped it: in
      exactly one of these.  A job with a worker or finished is called once for it, and never again. */
  lemma OnePlace(jobs: set<Job>, run: seq<Action>, t: nat)
    requires Inv(Start(jobs)) && Possible(Start(jobs), run)
    requires t < |After(Start(jobs), run).g.ledger|
    ensures var s := After(Start(jobs), run);
      match s.g.ledger[t].place
      case Waiting => Waits(s, t) && t !in s.g.runs && forall w :: !With(s, t, w)
      case Taken(w) => !Waits(s, t) && t !in s.g.runs && forall v :: With(s, t, v) <==> v == w
      case Started(w) => !Waits(s, t) && t in s.g.runs && forall v :: With(s, t, v) <==> v == w
      case Finished(_) => !Waits(s, t) && t in s.g.runs && forall w :: !With(s, t, w)
      case Dropped => !Waits(s, t) && t !in s.g.runs && forall w :: !With(s, t, w)
  {
    RunKeeps(Start(jobs), run);
    var s := After(Start(jobs), run);
    hide Inv, Possible, After;
    WhereIs(s, t);
  }

  lemma WhereIs(s: State, t: nat)
    requires Inv(s) && t < |s.g.ledger|
    ensures Waits(s, t) <==> s.g.ledger[t].place.Waiting?
    ensures t in s.g.runs <==> s.g.ledger[t].place.Started? || s.g.ledger[t].place.Finished?
    ensures forall w :: With(s, t, w) <==> s.g.ledger[t].place == Taken(w) || s.g.ledger[t].place == Started(w)
  {
    hide Excluded, Seen, Promised, Chain, Marked, Alert;
    if t in s.g.stack {
      var i :| 0 <= i < |s.g.stack| && s.g.stack[i] == t;
    }
    forall w
      ensures With(s, t, w) <==> s.g.ledger[t].place == Taken(w) || s.g.ledger[t].place == Started(w)
    {
      if With(s, t, w) {
        CarriedAt(w, s.at, s.g.ledger, s.g.ticket);
      }
    }
  }

  /** After every run no two threads have the mutex, so at most one worker ever leaves its loop. */
  lemma OneHolder(jobs: set<Job>, run: seq<Action>)
    requires Inv(Start(jobs)) && Possible(Start(jobs), run)
    ensures var s := After(Start(jobs), run);
      && (forall v, w | v in s.at && w in s.at && s.at[v].Holds() && s.at[w].Holds() :: v == w)
      && (forall c, d | c in s.doing && d in s.doing && s.doing[c].Holds() && s.doing[d].Holds() :: c == d)
      && (forall w, c | w in s.at && c in s.doing :: !(s.at[w].Holds() && s.doing[c].Holds()))
      && (forall w | w in s.at && s.at[w].Exited? :: Left(w, s))
  {
    RunKeeps(Start(jobs), run);
    var s := After(Start(jobs), run);
    hide Inv, Possible, After, Stacked, Delivered, Logged, Seen, Promised, Chain, Marked, Alert;
    assert Excluded(s.owner, s.at, s.doing) by { Parts(s); }
  }

  lemma Parts(s: State)
    requires Inv(s)
    ensures Logged(s.g.ledger, s.g.calls, s.g.runs) && Excluded(s.owner, s.at, s.doing)
    ensures Marked(s.doing, s.g.rounds, s.g.flagged, s.g.next) && Alert(s.g.nodes == [], s.at, s.doing, s.owner)
    ensures Attended(s.at, s.g.flagged, s.doing, s.g.rounds) && Cleaned(s.doing, s.g.rounds, s.g.roster, s.g.nodes)
  {
  }

  // ----- who leaves -----

  lemma Next(s: State, a: Action, rest: seq<Action>)
    requires Inv(s) && Enabled(s, a) && Inv(Perform(s, a)) && Possible(Perform(s, a), rest)
    ensures Possible(s, [a] + rest) && After(s, [a] + rest) == After(Perform(s, a), rest)
  {
    hide Inv, Enabled, Perform;
    assert ([a] + rest)[0] == a && ([a] + rest)[1..] == rest;
  }

  lemma {:induction false} Joined(s: State, run: seq<Action>, more: seq<Action>)
    requires Inv(s) && Possible(s, run) && Inv(After(s, run)) && Possible(After(s, run), more)
    ensures Possible(s, run + more) && After(s, run + more) == After(After(s, run), more)
    decreases |run|
  {
    hide Inv, Enabled, Perform;
    if run == [] {
      assert run + more == more;
    } else {
      StepKeeps(s, run[0]);
      Joined(Perform(s, run[0]), run[1..], more);
      assert (run + more)[0] == run[0] && (run + more)[1..] == run[1..] + more;
    }
  }

  /** Workers have been started, and nothing else has happened. */
  ghost predicate Quiet(s: State) {
    && Inv(s) && s.owner.Free? && s.g.nodes == [] && s.doing == map[]
    && (forall w | w in s.at :: s.at[w].Lock? && w in s.g.roster)
  }

  /** Workers can be started from s until crew is running. */
  ghost predicate Starts(s: State, crew: set<Worker>, run: seq<Action>) {
    Inv(s) && Possible(s, run) && Quiet(After(s, run)) && After(s, run).at.Keys == crew
  }

  lemma {:induction false} StartAll(s: State, crew: set<Worker>, left: set<Worker>) returns (run: seq<Action>)
    requires Quiet(s) && s.at.Keys !! left && crew == s.at.Keys + left
    ensures Starts(s, crew, run)
    decreases left
  {
    hide Inv, Perform, Enabled, Quiet, Starts, Possible, After;
    if left == {} {
      assert crew == s.at.Keys;
      StartsNow(s);
      run := [];
    } else {
      var w :| w in left;
      OneMore(s, w);
      run := StartAll(Perform(s, StartWorker(w)), crew, left - {w});
      StartsNext(s, w, crew, run);
      run := [StartWorker(w)] + run;
    }
  }

  lemma StartsNow(s: State)
    requires Quiet(s)
    ensures Starts(s, s.at.Keys, [])
  {
    QuietInv(s);
    hide Inv, Quiet;
    NoRun(s);
  }

  lemma StartsNext(s: State, w: Worker, crew: set<Worker>, run: seq<Action>)
    requires Inv(s) && Enabled(s, StartWorker(w)) && Starts(Perform(s, StartWorker(w)), crew, run)
    ensures Starts(s, crew, [StartWorker(w)] + run)
  {
    hide Inv, Quiet, Perform, Enabled, Possible, After;
    Next(s, StartWorker(w), run);
  }

  lemma QuietInv(s: State)
    requires Quiet(s)
    ensures Inv(s)
  {
  }

  lemma OneMore(s: State, w: Worker)
    requires Quiet(s) && w !in s.at
    ensures Inv(s) && Enabled(s, StartWorker(w))
    ensures Quiet(Perform(s, StartWorker(w))) && Perform(s, StartWorker(w)).at.Keys == s.at.Keys + {w}
  {
    hide Inv;
    StepKeeps(s, StartWorker(w));
  }

  /** The only call is a shutdown, and all workers wait for the mutex. */
  ghost predicate Closing(s: State, pc: CallerPc) {
    && Inv(s) && s.owner.Free? && s.g.nodes == [] && s.doing == map[0 := pc] && pc.Marks()
    && (forall w | w in s.at :: s.at[w].Lock?)
    && 0 in s.g.rounds && (forall w | w in s.at :: w in s.g.rounds[0].targets)
  }

  lemma {:induction false} MarkAll(s: State, pc: CallerPc, left: nat) returns (run: seq<Action>)
    requires Closing(s, pc) && pc.Mark? && left == |s.g.rounds[0].targets| - s.g.rounds[0].marked
    ensures Possible(s, run) && Closing(After(s, run), ShutLock) && After(s, run).at == s.at
    decreases left
  {
    hide Inv, Perform, Enabled, Possible, After, Closing;
    var r := OneMark(s, pc);
    if pc.cursor == null {
      NoRun(r);
      run := [];
    } else {
      run := MarkAll(r, r.doing[0], left - 1);
    }
    Next(s, MarkOne(0), run);
    run := [MarkOne(0)] + run;
  }

  lemma OneMark(s: State, pc: CallerPc) returns (r: State)
    requires Closing(s, pc) && pc.Mark?
    ensures Inv(s) && Enabled(s, MarkOne(0)) && r == Perform(s, MarkOne(0)) && Inv(r)
    ensures 0 in r.doing && Closing(r, r.doing[0]) && r.at == s.at && 0 in s.g.rounds && 0 in r.g.rounds
    ensures if pc.cursor == null then r.doing[0] == ShutLock
            else r.doing[0].Mark? && s.g.rounds[0].marked < |s.g.rounds[0].targets| &&
                 r.g.rounds[0] == s.g.rounds[0].(marked := s.g.rounds[0].marked + 1)
  {
    hide Inv, Marked, Excluded, Logged, Alert, Chain;
    Parts(s);
    RoundOf(0, s.doing, s.g.rounds, s.g.flagged, s.g.next);
    StepKeeps(s, MarkOne(0));
    r := Perform(s, MarkOne(0));
    Marking(s, r, pc);
  }

  lemma Marking(s: State, r: State, pc: CallerPc)
    requires Closing(s, pc) && Inv(r) && r.owner == s.owner && r.at == s.at && r.g.nodes == s.g.nodes
    requires 0 in r.doing && r.doing == s.doing[0 := r.doing[0]] && r.doing[0].Marks()
    requires 0 in r.g.rounds && r.g.rounds[0].targets == s.g.rounds[0].targets
    ensures Closing(r, r.doing[0])
  {
    hide Inv;
  }

  lemma AllMarked(s: State)
    requires Closing(s, ShutLock)
    ensures forall w | w in s.at :: w in s.g.flagged
  {
    hide Inv, Chain;
    Parts(s);
  }

  /** The shutdown has returned; worker w has left its loop, and the others, told to terminate, wait for the mutex. */
  ghost predicate Stuck(s: State, w: Worker) {
    && s.doing == map[] && w in s.at && s.at[w].Exited?
    && (forall v | v in s.at :: v in s.g.flagged && (v != w ==> s.at[v].Lock?))
  }

  /** The shutdown has the mutex. */
  ghost predicate Clearing(s: State, pc: CallerPc, was: State) {
    && Inv(s) && s.owner == ByCaller(0) && s.doing == map[0 := pc] && s.g.nodes == []
    && s.at == was.at && s.g.flagged == was.g.flagged && (forall w | w in s.at :: s.at[w].Lock?)
  }

  function ClearStep(pc: CallerPc): Action {
    if pc.ClearWorkers? then DropWorkers(0) else if pc.ClearJobs? then DropJobs(0)
    else if pc.Broadcast? then WakeAll(0) else CallerUnlock(0)
  }

  function ClearNext(pc: CallerPc): CallerPc {
    if pc.ClearWorkers? then ClearJobs else if pc.ClearJobs? then Broadcast else ShutUnlock
  }

  lemma OneClear(s: State, pc: CallerPc, was: State)
    requires Clearing(s, pc, was) && (pc.ClearWorkers? || pc.ClearJobs? || pc.Broadcast?)
    ensures Enabled(s, ClearStep(pc)) && Clearing(Perform(s, ClearStep(pc)), ClearNext(pc), was)
  {
    hide Inv;
    StepKeeps(s, ClearStep(pc));
  }

  lemma {:induction false} ClearRest(s: State, pc: CallerPc, was: State, left: nat) returns (run: seq<Action>)
    requires Clearing(s, pc, was)
    requires (left == 3 && pc.ClearWorkers?) || (left == 2 && pc.ClearJobs?) || (left == 1 && pc.Broadcast?) ||
             (left == 0 && pc.ShutUnlock?)
    ensures Possible(s, run) && Cleared(After(s, run), was)
    decreases left
  {
    hide Inv, Perform, Enabled, Possible, After, Clearing, Cleared;
    KeepsInv(s, pc, was);
    var a := ClearStep(pc);
    if left == 0 {
      LastClear(s, was);
      NoRun(Perform(s, a));
      run := [];
    } else {
      OneClear(s, pc, was);
      KeepsInv(Perform(s, a), ClearNext(pc), was);
      run := ClearRest(Perform(s, a), ClearNext(pc), was, left - 1);
    }
    Next(s, a, run);
    run := [a] + run;
  }

  lemma KeepsInv(s: State, pc: CallerPc, was: State)
    requires Clearing(s, pc, was)
    ensures Inv(s)
  {
  }

  ghost predicate Cleared(s: State, was: State) {
    && Inv(s) && s.owner.Free? && s.doing == map[] && s.g.nodes == [] && s.at == was.at && s.g.flagged == was.g.flagged
  }

  lemma LastClear(s: State, was: State)
    requires Clearing(s, ShutUnlock, was)
    ensures Enabled(s, CallerUnlock(0)) && Cleared(Perform(s, CallerUnlock(0)), was)
    ensures Inv(s) && Inv(Perform(s, CallerUnlock(0)))
  {
    hide Inv;
    StepKeeps(s, CallerUnlock(0));
  }

  lemma FirstClear(s: State)
    requires Closing(s, ShutLock)
    ensures Inv(s) && Enabled(s, CallerLock(0))
    ensures Inv(Perform(s, CallerLock(0))) && Clearing(Perform(s, CallerLock(0)), ClearWorkers, s)
  {
    hide Inv;
    StepKeeps(s, CallerLock(0));
  }

  lemma ClearAll(s: State) returns (run: seq<Action>)
    requires Closing(s, ShutLock)
    ensures Possible(s, run) && Cleared(After(s, run), s)
  {
    hide Inv, Perform, Enabled, Possible, After, Clearing;
    FirstClear(s);
    run := ClearRest(Perform(s, CallerLock(0)), ClearWorkers, s, 3);
    Next(s, CallerLock(0), run);
    run := [CallerLock(0)] + run;
  }

  lemma LeaveOne(s: State, w: Worker) returns (run: seq<Action>)
    requires Inv(s) && s.owner.Free? && s.g.nodes == [] && w in s.at && s.at[w].Lock? && w in s.g.flagged
    ensures Possible(s, run) && After(s, run).at == s.at[w := Exited]
    ensures After(s, run).doing == s.doing && After(s, run).g == s.g
  {
    hide Inv;
    var a := [WorkerLock(w), TestTheList(w), TestTerminate(w)];
    StepKeeps(s, a[0]);
    var s1 := Perform(s, a[0]);
    StepKeeps(s1, a[1]);
    var s2 := Perform(s1, a[1]);
    StepKeeps(s2, a[2]);
    var s3 := Perform(s2, a[2]);
    StepKeeps(s3, a[2]);
    Next(s3, a[2], []);
    Next(s2, a[2], [a[2]]);
    Next(s1, a[1], [a[2]] + [a[2]]);
    Next(s, a[0], [a[1]] + ([a[2]] + [a[2]]));
    run := [a[0]] + ([a[1]] + ([a[2]] + [a[2]]));
  }

  /** From its call to its return, in one stretch */
  lemma ShutAll(s: State) returns (run: seq<Action>)
    requires Quiet(s)
    ensures Possible(s, run) && Inv(After(s, run)) && After(s, run).doing == map[] && After(s, run).owner.Free?
    ensures After(s, run).at == s.at && After(s, run).g.nodes == []
    ensures forall w | w in s.at :: w in After(s, run).g.flagged
  {
    hide Inv, Possible, After;
    StepKeeps(s, Shutdown(0));
    var r := Perform(s, Shutdown(0));
    var mark := MarkAll(r, r.doing[0], |r.g.rounds[0].targets|);
    var q := After(r, mark);
    AllMarked(q);
    var clear := ClearAll(q);
    Joined(r, mark, clear);
    Next(s, Shutdown(0), mark + clear);
    run := [Shutdown(0)] + (mark + clear);
  }

  /** Whichever workers there are, and whichever is first: a shutdown may end with that one gone and the others stuck. */
  lemma GetsStuck(jobs: set<Job>, crew: set<Worker>, w: Worker) returns (run: seq<Action>)
    requires Inv(Start(jobs)) && w in crew
    ensures Possible(Start(jobs), run) && Inv(After(Start(jobs), run))
    ensures After(Start(jobs), run).at.Keys == crew && Stuck(After(Start(jobs), run), w)
  {
    hide Inv, Perform, Enabled, After, Possible;
    var s := Start(jobs);
    var start := StartAll(s, crew, crew);
    var r := After(s, start);
    var shut := ShutAll(r);
    var q := After(r, shut);
    var leave := LeaveOne(q, w);
    RunKeeps(q, leave);
    Joined(r, shut, leave);
    Joined(s, start, shut + leave);
    run := start + (shut + leave);
  }

  /** And stuck they are, whatever happens from then on. */
  lemma StaysStuck(s: State, w: Worker, more: seq<Action>)
    requires Inv(s) && w in s.at && s.at[w].Exited? && Possible(s, more)
    ensures Inv(After(s, more)) && forall v | v in After(s, more).at && v != w :: !After(s, more).at[v].Exited?
  {
    hide Possible, After, Enabled, Perform;
    RunKeeps(s, more);
    Parts(s);
    Parts(After(s, more));
    hide Inv;
  }

  /** Every worker that was started has left its loop. */
  ghost predicate AllLeft(jobs: set<Job>, crew: set<Worker>, run: seq<Action>)
    requires Inv(Start(jobs))
  {
    && Possible(Start(jobs), run) && After(Start(jobs), run).at.Keys == crew
    && forall w | w in crew :: After(Start(jobs), run).at[w].Exited?
  }

  /** There is a run in which all workers leave exactly if there is at most one worker. */
  lemma AllLeaveExactly(jobs: set<Job>, crew: set<Worker>)
    requires Inv(Start(jobs))
    ensures (exists run :: AllLeft(jobs, crew, run)) <==> |crew| <= 1
  {
    hide Inv, Possible, After, Enabled, Perform;
    if crew == {} {
      assert AllLeft(jobs, crew, []) by { NoRun(Start(jobs)); }
    } else {
      var w :| w in crew;
      if crew == {w} {
        var run := GetsStuck(jobs, crew, w);
        assert AllLeft(jobs, crew, run);
      } else {
        Others(crew, w);
        forall run | AllLeft(jobs, crew, run) ensures false {
          OneLeaves(jobs, crew, run, w);
        }
      }
    }
  }

  lemma OneLeaves(jobs: set<Job>, crew: set<Worker>, run: seq<Action>, w: Worker)
    requires Inv(Start(jobs)) && AllLeft(jobs, crew, run) && w in crew
    ensures crew == {w}
  {
    hide Inv, Enabled, Perform, After, Possible;
    forall v | v in crew ensures v == w {
      SameLeaves(jobs, run, v, w);
    }
  }

  /** Two workers that have left are one. */
  lemma SameLeaves(jobs: set<Job>, run: seq<Action>, v: Worker, w: Worker)
    requires Inv(Start(jobs)) && Possible(Start(jobs), run)
    requires v in After(Start(jobs), run).at && After(Start(jobs), run).at[v].Exited?
    requires w in After(Start(jobs), run).at && After(Start(jobs), run).at[w].Exited?
    ensures v == w
  {
    hide Inv, Enabled, Perform, After, Possible;
    OneHolder(jobs, run);
  }

  lemma NoRun(s: State)
    requires Inv(s)
    ensures Possible(s, []) && After(s, []) == s
  {
  }

  lemma Others(crew: set<Worker>, w: Worker)
    requires w in crew && crew != {w}
    ensures |crew| > 1 && exists v :: v in crew && v != w
  {
    assert crew == (crew - {w}) + {w};
  }

  /** After every run, job_function has been called for each job at most as often as the job was added. */
  lemma CalledAtMostAsAdded(jobs: set<Job>, run: seq<Action>)
    requires Inv(Start(jobs)) && Possible(Start(jobs), run)
    ensures var g := After(Start(jobs), run).g;
      multiset(g.calls) <= multiset(Added(g.ledger))
  {
    RunKeeps(Start(jobs), run);
    var s := After(Start(jobs), run);
    hide Inv, Possible, After;
    Parts(s);
    CallsAreSubmitted(s.g.ledger, s.g.runs, s.g.calls);
  }

  /** After every run, if a job waits then some worker in its loop is not asleep, unless no worker was started, or the
      next step of the caller that has the mutex is the signal, or a worker has left with the mutex. */
  lemma NoLostWakeup(jobs: set<Job>, run: seq<Action>)
    requires Inv(Start(jobs)) && Possible(Start(jobs), run)
    ensures var s := After(Start(jobs), run);
      s.g.nodes != [] && s.at != map[] ==> (
        || (exists w | w in s.at :: Awake(w, s.at))
        || (exists c | c in s.doing :: s.doing[c].AddSignal? && s.owner == ByCaller(c))
        || (exists w | w in s.at :: Left(w, s)))
  {
    RunKeeps(Start(jobs), run);
    var s := After(Start(jobs), run);
    hide Inv, Possible, After;
    Parts(s);
    if s.owner.ByWorker? && s.owner.worker in s.at && s.at[s.owner.worker].Exited? {
      assert Left(s.owner.worker, s);
    }
  }

  /** After every run, a shutdown that is past its loop has told every worker it found to terminate. */
  lemma ShutdownMarks(jobs: set<Job>, run: seq<Action>, c: nat)
    requires Inv(Start(jobs)) && Possible(Start(jobs), run)
    requires c in After(Start(jobs), run).doing && After(Start(jobs), run).doing[c].Marks()
    ensures var s := After(Start(jobs), run);
      c in s.g.rounds
      && (!s.doing[c].Mark? ==> forall i | 0 <= i < |s.g.rounds[c].targets| :: s.g.rounds[c].targets[i] in s.g.flagged)
  {
    RunKeeps(Start(jobs), run);
    var s := After(Start(jobs), run);
    hide Inv, Possible, After, Chain;
    Parts(s);
  }

  /** After every run, once no shutdown is before its broadcast, nobody who was told to terminate sleeps or is about
      to: he is up, or has left. */
  lemma NobodyOversleeps(jobs: set<Job>, run: seq<Action>)
    requires Inv(Start(jobs)) && Possible(Start(jobs), run)
    ensures var s := After(Start(jobs), run);
      (forall c | c in s.doing :: !s.doing[c].WillWake()) ==>
        forall w | w in s.at && w in s.g.flagged :: !s.at[w].Wait? && !s.at[w].Asleep?
  {
    RunKeeps(Start(jobs), run);
    var s := After(Start(jobs), run);
    hide Inv, Possible, After, Core, Cleaned;
    Parts(s);
    forall w | w in s.at && w in s.g.flagged && Sleeps(w, s.at) ensures Expected(w, s.doing, s.g.rounds) {
    }
  }

  /** Of all jobs that wait a worker takes the one that was added last. */
  lemma NewestFirst(s: State, a: Action, t: nat)
    requires Inv(s) && Enabled(s, a) && t < |s.g.ledger|
    requires s.g.ledger[t].place.Waiting? && t < |Perform(s, a).g.ledger| && Perform(s, a).g.ledger[t].place.Taken?
    ensures a.TakeJob? && forall u | 0 <= u < |s.g.ledger| && s.g.ledger[u].place.Waiting? :: u <= t
  {
    hide Delivered, Logged, Excluded, Seen, Promised, Chain, Marked, Alert, Attended, Cleaned;
    if a.CallJob? || a.Return? {
      CarriedAt(a.w, s.at, s.g.ledger, s.g.ticket);
    }
    if a.TakeJob? {
      Busy(s, a.w);
      forall u | 0 <= u < |s.g.ledger| && s.g.ledger[u].place.Waiting? ensures u <= t {
        assert u in s.g.stack;
      }
    }
  }

  /** After every run, a shutdown that is about to return has left no job on the list, and no worker that it found on
      the other. */
  lemma ShutdownClears(jobs: set<Job>, run: seq<Action>, c: nat)
    requires Inv(Start(jobs)) && Possible(Start(jobs), run)
    requires c in After(Start(jobs), run).doing && After(Start(jobs), run).doing[c].ShutUnlock?
    ensures var s := After(Start(jobs), run);
      s.g.nodes == [] && c in s.g.rounds && forall w | w in s.g.roster :: w !in s.g.rounds[c].targets
  {
    RunKeeps(Start(jobs), run);
    var s := After(Start(jobs), run);
    hide Inv, Possible, After, Core, Attended;
    Parts(s);
  }

  /** LL_ADD leaves prev of the old head alone: every node has prev NULL, and next is the next older one. */
  ghost predicate Listed(nodes: seq<Job>, head: Job?, jobs: set<Job>)
    reads jobs
  {
    && (forall i | 0 <= i < |nodes| :: nodes[i] in jobs && nodes[i].prev == null)
    && (forall i, j | 0 <= i < |nodes| && 0 <= j < |nodes| && j == i + 1 :: nodes[i].next == nodes[j])
    && (nodes != [] ==> nodes[|nodes| - 1].next == null)
    && (forall i, j | 0 <= i < j < |nodes| :: nodes[i] != nodes[j])
    && head == if nodes == [] then null else nodes[0]
  }

  lemma Head(nodes: seq<Job>, head: Job?, jobs: set<Job>)
    requires Listed(nodes, head, jobs)
    ensures head == null <==> nodes == []
  {
  }

  ghost predicate Recorded(next: map<Worker, Worker?>, flagged: set<Worker>, crew: set<Worker>)
    reads crew
  {
    && next.Keys <= crew
    && (forall w | w in next :: w.next == next[w] && (w.terminate <==> w in flagged))
  }

  lemma RecordOf(w: Worker, next: map<Worker, Worker?>, flagged: set<Worker>, crew: set<Worker>)
    requires Recorded(next, flagged, crew) && w in next
    ensures w in crew && w.next == next[w] && (w.terminate <==> w in flagged)
  {
  }

  lemma KeysOf(s: State)
    requires Inv(s)
    ensures s.g.next.Keys == s.at.Keys
  {
  }

  lemma NoneListed(jobs: set<Job>)
    ensures Listed([], null, jobs)
  {
  }

  lemma Carrying(s: State, w: Worker)
    requires Inv(s) && w in s.at && s.at[w].Carries()
    ensures s.at[w].job != null && w in s.g.ticket && s.g.ticket[w] < |s.g.ledger|
  {
    CarriedAt(w, s.at, s.g.ledger, s.g.ticket);
  }

  lemma Adding(s: State, c: nat)
    requires Inv(s) && c in s.doing && s.doing[c].Adds()
    ensures s.doing[c].job in s.jobs && s.doing[c].job !in s.g.nodes
  {
  }

  lemma MarkingAt(s: State, c: nat)
    requires Inv(s) && c in s.doing && s.doing[c].Mark?
    ensures c in s.g.rounds && (s.doing[c].cursor != null ==> s.doing[c].cursor in s.g.next)
  {
    RoundOf(c, s.doing, s.g.rounds, s.g.flagged, s.g.next);
  }

  class WorkQueue {
    /** Every worker and every job there may ever be. */
    const crew: set<Worker>
    const jobs: set<Job>

    var workers: Worker?
    var waitingJobs: Job?
    var owner: Owner
    var at: map<Worker, WorkerPc>
    var doing: map<nat, CallerPc>
    ghost var g: Ghost

    ghost function Now(): State
      reads this
    {
      State(jobs, workers, owner, at, doing, g)
    }

    ghost predicate Valid()
      reads this, crew, jobs
    {
      Listed(g.nodes, waitingJobs, jobs) && Recorded(g.next, g.flagged, crew) && Inv(Now())
    }

    /** workqueue_init, before it has started any worker. */
    constructor (crew: set<Worker>, jobs: set<Job>)
      ensures this.crew == crew && this.jobs == jobs
      ensures Valid() && Now() == Start(jobs)
    {
      this.crew, this.jobs := crew, jobs;
      workers, waitingJobs, owner, at, doing := null, null, Free, map[], map[];
      g := START;
      new;
      StartHolds(jobs);
    }

    /** The record of a new worker is cleared, and LL_ADD puts it on the list of workers. */
    method LinkWorker(w: Worker)
      requires Recorded(g.next, g.flagged, crew) && w in crew && w !in g.next
      modifies this`workers, this`g, w
      ensures workers == w && g == old(g).(roster := [w] + old(g).roster, next := old(g).next[w := old(workers)],
                                flagged := old(g).flagged - {w})
      ensures Recorded(g.next, g.flagged, crew)
    {
      w.terminate := false;
      w.prev := null;
      w.next := workers;
      g := g.(roster := [w] + g.roster, next := g.next[w := workers], flagged := g.flagged - {w});
      workers := w;
    }

    /** pthread_create, and LL_ADD for the list of workers. */
    method StartOne(w: Worker)
      requires Valid() && w in crew && Enabled(Now(), StartWorker(w))
      modifies this`workers, this`at, this`g, w
      ensures Valid() && Now() == Perform(old(Now()), StartWorker(w))
    {
      hide Inv, Listed, Recorded;
      StepKeeps(Now(), StartWorker(w));
      KeysOf(Now());
      LinkWorker(w);
      at := at[w := Lock];
    }

    /** pthread_mutex_lock, or the mutex again after pthread_cond_wait */
    method LockByWorker(w: Worker)
      requires Valid() && Enabled(Now(), WorkerLock(w))
      modifies this`owner, this`at
      ensures Valid() && Now() == Perform(old(Now()), WorkerLock(w))
    {
      hide Inv, Listed, Recorded;
      StepKeeps(Now(), WorkerLock(w));
      owner := ByWorker(w);
      at := at[w := TestList];
    }

    /** while (waiting_jobs == NULL) */
    method TestWaiting(w: Worker)
      requires Valid() && Enabled(Now(), TestTheList(w))
      modifies this`at
      ensures Valid() && Now() == Perform(old(Now()), TestTheList(w))
    {
      hide Inv, Listed, Recorded;
      StepKeeps(Now(), TestTheList(w));
      Head(g.nodes, waitingJobs, jobs);
      at := at[w := if waitingJobs == null then TestInner else TestOuter];
    }

    /** if (terminate) break, in the inner loop and after it */
    method TestFlag(w: Worker)
      requires Valid() && Enabled(Now(), TestTerminate(w))
      modifies this`at
      ensures Valid() && Now() == Perform(old(Now()), TestTerminate(w))
    {
      hide Inv, Listed, Recorded;
      StepKeeps(Now(), TestTerminate(w));
      KeysOf(Now());
      RecordOf(w, g.next, g.flagged, crew);
      if at[w].TestInner? {
        at := at[w := if w.terminate then TestOuter else Wait];
      } else {
        at := at[w := if w.terminate then Exited else Take];
      }
    }

    /** pthread_cond_wait: release the mutex and block */
    method CondWait(w: Worker)
      requires Valid() && Enabled(Now(), Sleep(w))
      modifies this`owner, this`at
      ensures Valid() && Now() == Perform(old(Now()), Sleep(w))
    {
      hide Inv, Listed, Recorded;
      StepKeeps(Now(), Sleep(w));
      owner := Free;
      at := at[w := Asleep];
    }

    /** pthread_cond_wait returns without a signal, which it may */
    method WakeUp(w: Worker)
      requires Valid() && Enabled(Now(), Wake(w))
      modifies this`at
      ensures Valid() && Now() == Perform(old(Now()), Wake(w))
    {
      hide Inv, Listed, Recorded;
      StepKeeps(Now(), Wake(w));
      at := at[w := Woken];
    }

    /** LL_REMOVE */
    method Remove(item: Job)
      modifies this`waitingJobs, item, item.prev, item.next
      ensures item.prev == null && item.next == null
      ensures waitingJobs == if old(waitingJobs) == item then old(item.next) else old(waitingJobs)
      ensures old(item.prev) != null && old(item.prev) != item ==> old(item.prev).next == old(item.next)
      ensures old(item.next) != null && old(item.next) != item ==> old(item.next).prev == old(item.prev)
      ensures old(item.prev) == null && old(item.next) != null && old(item.next) != item ==>
                old(item.next).next == old(item.next.next)
    {
      if item.prev != null {
        item.prev.next := item.next;
      }
      if item.next != null {
        item.next.prev := item.prev;
      }
      if waitingJobs == item {
        waitingJobs := item.next;
      }
      item.prev, item.next := null, null;
    }

    /** Removing the head is a pop, although LL_ADD never gave the old head a prev. */
    method PopHead() returns (job: Job)
      requires Listed(g.nodes, waitingJobs, jobs) && waitingJobs != null
      modifies this`waitingJobs, jobs
      ensures g.nodes != [] && job == g.nodes[0] && Listed(g.nodes[1..], waitingJobs, jobs)
      ensures job.prev == null && job.next == null
    {
      job := waitingJobs;
      assert |g.nodes| > 1 ==> job.next == g.nodes[1];
      Remove(job);
    }

    /** LL_ADD of a job that is not on the list. */
    method PushHead(job: Job)
      requires Listed(g.nodes, waitingJobs, jobs) && job in jobs && job !in g.nodes
      modifies this`waitingJobs, job
      ensures Listed([job] + g.nodes, waitingJobs, jobs)
    {
      job.prev := null;
      job.next := waitingJobs;
      waitingJobs := job;
      var list := [job] + g.nodes;
      forall i, j | 0 <= i < |list| && 0 <= j < |list| && j == i + 1
        ensures list[i].next == list[j]
      {
        if i > 0 {
          assert list[i] == g.nodes[i - 1] && list[j] == g.nodes[j - 1];
        }
      }
      if g.nodes != [] {
        assert list[|list| - 1] == g.nodes[|g.nodes| - 1];
      }
    }

    /** job = waiting_jobs, and LL_REMOVE: never finds the list empty */
    method TakeHead(w: Worker) returns (job: Job?)
      requires Valid() && Enabled(Now(), TakeJob(w))
      modifies this`waitingJobs, this`at, this`g, jobs
      ensures old(g).nodes != [] && job == old(g).nodes[0]
      ensures Valid() && Now() == Perform(old(Now()), TakeJob(w))
    {
      hide Inv, Listed, Recorded;
      StepKeeps(Now(), TakeJob(w));
      Busy(Now(), w);
      Head(g.nodes, waitingJobs, jobs);
      job := waitingJobs;
      if job != null {
        job := PopHead();
      }
      at := at[w := Unlock(job)];
      g := g.(nodes := g.nodes[1..], stack := g.stack[1..], ledger := g.ledger[g.stack[0] := Entry(job, Taken(w))],
              ticket := g.ticket[w := g.stack[0]]);
    }

    /** pthread_mutex_unlock, and continue without a job */
    method UnlockByWorker(w: Worker)
      requires Valid() && Enabled(Now(), WorkerUnlock(w))
      modifies this`owner, this`at
      ensures Valid() && Now() == Perform(old(Now()), WorkerUnlock(w))
    {
      hide Inv, Listed, Recorded;
      StepKeeps(Now(), WorkerUnlock(w));
      Carrying(Now(), w);
      owner := Free;
      at := at[w := if at[w].job == null then Lock else Call(at[w].job)];
    }

    /** job_function is called */
    method CallFunction(w: Worker)
      requires Valid() && Enabled(Now(), CallJob(w))
      modifies this`at, this`g
      ensures Valid() && Now() == Perform(old(Now()), CallJob(w))
    {
      hide Inv, Listed, Recorded;
      StepKeeps(Now(), CallJob(w));
      Carrying(Now(), w);
      var job := at[w].job;
      at := at[w := Running(job)];
      g := g.(calls := g.calls + [job], runs := g.runs + [g.ticket[w]],
              ledger := g.ledger[g.ticket[w] := Entry(job, Started(w))]);
    }

    /** job_function returns */
    method ReturnFromJob(w: Worker)
      requires Valid() && Enabled(Now(), Return(w))
      modifies this`at, this`g
      ensures Valid() && Now() == Perform(old(Now()), Return(w))
    {
      hide Inv, Listed, Recorded;
      StepKeeps(Now(), Return(w));
      Carrying(Now(), w);
      g := g.(ledger := g.ledger[g.ticket[w] := Entry(at[w].job, Finished(w))]);
      at := at[w := Lock];
    }

    /** workqueue_add_job is called */
    method AddJob(c: nat, job: Job)
      requires Valid() && Enabled(Now(), Add(c, job))
      modifies this`doing
      ensures Valid() && Now() == Perform(old(Now()), Add(c, job))
    {
      hide Inv, Listed, Recorded;
      StepKeeps(Now(), Add(c, job));
      doing := doing[c := AddLock(job)];
    }

    /** workqueue_shutdown is called */
    method ShutDown(c: nat)
      requires Valid() && Enabled(Now(), Shutdown(c))
      modifies this`doing, this`g
      ensures Valid() && Now() == Perform(old(Now()), Shutdown(c))
    {
      hide Inv, Listed, Recorded;
      StepKeeps(Now(), Shutdown(c));
      doing := doing[c := Mark(workers)];
      g := g.(rounds := g.rounds[c := Round(g.roster, 0)]);
    }

    /** pthread_mutex_lock in either of the two */
    method LockByCaller(c: nat)
      requires Valid() && Enabled(Now(), CallerLock(c))
      modifies this`owner, this`doing
      ensures Valid() && Now() == Perform(old(Now()), CallerLock(c))
    {
      hide Inv, Listed, Recorded;
      StepKeeps(Now(), CallerLock(c));
      owner := ByCaller(c);
      doing := doing[c := if doing[c].ShutLock? then ClearWorkers else AddLink(doing[c].job)];
    }

    /** LL_ADD */
    method LinkOne(c: nat)
      requires Valid() && Enabled(Now(), LinkJob(c))
      modifies this`waitingJobs, this`doing, this`g, jobs
      ensures Valid() && Now() == Perform(old(Now()), LinkJob(c))
    {
      hide Inv, Listed, Recorded;
      StepKeeps(Now(), LinkJob(c));
      Adding(Now(), c);
      var job := doing[c].job;
      PushHead(job);
      doing := doing[c := AddSignal];
      g := g.(nodes := [job] + g.nodes, stack := [|g.ledger|] + g.stack, ledger := g.ledger + [Entry(job, Waiting)]);
    }

    /** pthread_cond_signal wakes a sleeper, if there is one */
    method SignalOne(c: nat, woken: Worker?)
      requires Valid() && Enabled(Now(), Signal(c, woken))
      modifies this`at, this`doing
      ensures Valid() && Now() == Perform(old(Now()), Signal(c, woken))
    {
      hide Inv, Listed, Recorded;
      StepKeeps(Now(), Signal(c, woken));
      doing := doing[c := AddUnlock];
      if woken != null {
        at := at[woken := Woken];
      }
    }

    /** pthread_mutex_unlock in either of the two, and return */
    method UnlockByCaller(c: nat)
      requires Valid() && Enabled(Now(), CallerUnlock(c))
      modifies this`owner, this`doing
      ensures Valid() && Now() == Perform(old(Now()), CallerUnlock(c))
    {
      hide Inv, Listed, Recorded;
      StepKeeps(Now(), CallerUnlock(c));
      owner := Free;
      doing := doing - {c};
    }

    /** One turn of the loop that sets terminate, without the mutex */
    method MarkWorker(c: nat)
      requires Valid() && Enabled(Now(), MarkOne(c))
      modifies this`doing, this`g, crew`terminate
      ensures Valid() && Now() == Perform(old(Now()), MarkOne(c))
    {
      hide Inv, Listed, Recorded;
      StepKeeps(Now(), MarkOne(c));
      MarkingAt(Now(), c);
      var cursor := doing[c].cursor;
      if cursor == null {
        doing := doing[c := ShutLock];
      } else {
        RecordOf(cursor, g.next, g.flagged, crew);
        SetTerminate(cursor);
        doing := doing[c := Mark(cursor.next)];
        g := g.(flagged := g.flagged + {cursor}, rounds := g.rounds[c := g.rounds[c].(marked := g.rounds[c].marked + 1)]);
      }
    }

    method SetTerminate(w: Worker)
      requires Recorded(g.next, g.flagged, crew) && w in g.next && w in crew
      modifies crew`terminate
      ensures Recorded(g.next, g.flagged + {w}, crew)
    {
      w.terminate := true;
    }

    /** workers = NULL */
    method ForgetWorkers(c: nat)
      requires Valid() && Enabled(Now(), DropWorkers(c))
      modifies this`workers, this`doing, this`g
      ensures Valid() && Now() == Perform(old(Now()), DropWorkers(c))
    {
      hide Inv, Listed, Recorded;
      StepKeeps(Now(), DropWorkers(c));
      workers := null;
      doing := doing[c := ClearJobs];
      g := g.(roster := []);
    }

    /** waiting_jobs = NULL */
    method ForgetJobs(c: nat)
      requires Valid() && Enabled(Now(), DropJobs(c))
      modifies this`waitingJobs, this`doing, this`g
      ensures Valid() && Now() == Perform(old(Now()), DropJobs(c))
    {
      hide Inv, Listed, Recorded;
      StepKeeps(Now(), DropJobs(c));
      waitingJobs := null;
      doing := doing[c := Broadcast];
      g := g.(nodes := [], stack := [], ledger := Drop(g.ledger));
      NoneListed(jobs);
    }

    /** pthread_cond_broadcast */
    method WakeEverybody(c: nat)
      requires Valid() && Enabled(Now(), WakeAll(c))
      modifies this`at, this`doing
      ensures Valid() && Now() == Perform(old(Now()), WakeAll(c))
    {
      hide Inv, Listed, Recorded;
      StepKeeps(Now(), WakeAll(c));
      at := map w | w in at :: if at[w].Asleep? then Woken else at[w];
      doing := doing[c := ShutUnlock];
    }
  }
}
