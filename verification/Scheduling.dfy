/** Where tasks are: the ready queue, the pending tree, the wait queues of semaphores and the
    workers, with any number of workers and semaphores interleaved step by step. */
module Scheduling {
  import opened Common
  import RwcSem

  type TaskId = nat
  type WorkerId = nat
  type SemId = nat

  datatype WaitFor = Read | Write | Commit | Lock

  /** The four wait queues of a semaphore. */
  datatype Waiters = Waiters(readq: seq<TaskId>, writeq: seq<TaskId>, commitq: seq<TaskId>, lockq: seq<TaskId>)

  const NoWaiters := Waiters([], [], [], [])

  /** What a worker does: nothing, run a task, or carry tasks it has taken from wait queues to
      the pending tree, with the task it runs, if that is to go on, besides. */
  datatype Worker =
    | Idle
    | Running(task: TaskId)
    | Carrying(own: Option<TaskId>, requeue: bool, chains: Waiters)

  datatype Place =
    | Ready
    | Pending
    | WaitQueue(sem: SemId, op: WaitFor)
    | OnWorker(w: WorkerId)
    | InHands(w: WorkerId, op: WaitFor)

  /** `itimes` holds the submission time of every task ever submitted. `place` is a history
      variable: the place of every task submitted and not finished. */
  datatype State = State(
    req_id: nat,
    itimes: map<TaskId, nat>,
    ready: seq<TaskId>,
    pending: map<nat, TaskId>,
    sems: map<SemId, Waiters>,
    workers: map<WorkerId, Worker>,
    place: map<TaskId, Place>)

  datatype Step =
    | Submit(t: TaskId)
    | Fetch(w: WorkerId)
    | Wait(w: WorkerId, sem: SemId, op: WaitFor)
    | Wake(w: WorkerId, sem: SemId, word: RwcSem.Word, is_complete: bool)
    | Requeue(w: WorkerId)
    | AddPending(w: WorkerId)
    | Finish(w: WorkerId)

  function QueueOf(q: Waiters, op: WaitFor): seq<TaskId> {
    match op
    case Read => q.readq
    case Write => q.writeq
    case Commit => q.commitq
    case Lock => q.lockq
  }

  function WithQueue(q: Waiters, op: WaitFor, tasks: seq<TaskId>): Waiters {
    match op
    case Read => q.(readq := tasks)
    case Write => q.(writeq := tasks)
    case Commit => q.(commitq := tasks)
    case Lock => q.(lockq := tasks)
  }

  /** z_rwcsem_is_readable, _writable, _committable and _lockable. */
  predicate Admits(w: RwcSem.Word, op: WaitFor) {
    match op
    case Read => !w.commit && !w.lock
    case Write => !w.write && !w.commit && !w.lock
    case Commit => w.readers == 0 && !w.write && !w.lock
    case Lock => w.readers == 0 && !w.write && !w.commit
  }

  /** __task_rwcsem_runnables: the queues the word admits are drained whole. */
  function Drained(q: Waiters, word: RwcSem.Word): Waiters {
    Waiters(if Admits(word, Read) then q.readq else [], if Admits(word, Write) then q.writeq else [],
            if Admits(word, Commit) then q.commitq else [], if Admits(word, Lock) then q.lockq else [])
  }

  function Kept(q: Waiters, word: RwcSem.Word): Waiters {
    Waiters(if Admits(word, Read) then [] else q.readq, if Admits(word, Write) then [] else q.writeq,
            if Admits(word, Commit) then [] else q.commitq, if Admits(word, Lock) then [] else q.lockq)
  }

  /** All tasks a worker is about to file, in the order in which it files them. */
  function Hands(q: Waiters): seq<TaskId> { q.readq + q.writeq + q.commitq + q.lockq }

  /** z_task_tree_push, one chain: a task is filed under its submission time, over any other. */
  function File(pending: map<nat, TaskId>, itimes: map<TaskId, nat>, tasks: seq<TaskId>): map<nat, TaskId>
    requires forall t | t in tasks :: t in itimes
  {
    if tasks == [] then pending
    else
      var last := tasks[|tasks| - 1];
      File(pending, itimes, tasks[..|tasks| - 1])[itimes[last] := last]
  }

  predicate Runs(s: State, w: WorkerId) { w in s.workers && s.workers[w].Running? }

  function Move(s: State, t: TaskId, to: Place): map<TaskId, Place> { s.place[t := to] }

  function MoveAll(place: map<TaskId, Place>, tasks: seq<TaskId>, to: Place): map<TaskId, Place> {
    map t | t in place.Keys + (set x | x in tasks) :: if t in tasks then to else place[t]
  }

  /** Tasks that leave the wait queues of `sem` for the hands of `w`. */
  function Taken(place: map<TaskId, Place>, q: Waiters, w: WorkerId): map<TaskId, Place> {
    MoveAll(MoveAll(MoveAll(MoveAll(place, q.readq, InHands(w, Read)), q.writeq, InHands(w, Write)),
                    q.commitq, InHands(w, Commit)), q.lockq, InHands(w, Lock))
  }

  function Carried(own: Option<TaskId>, requeue: bool, q: Waiters): seq<TaskId> {
    (if own.Some? && requeue then [own.value] else []) + Hands(q)
  }

  ghost predicate Next(s: State, step: Step, s': State) {
    match step
    // z_global_add_task
    case Submit(t) =>
      && t !in s.itimes
      && s' == s.(req_id := s.req_id + 1, itimes := s.itimes[t := s.req_id], ready := s.ready + [t],
                  place := Move(s, t, Ready))
    // __cpu_ctx_fetch_task: the pending tree first, then the ready queue
    case Fetch(w) =>
      && w in s.workers && s.workers[w].Idle?
      && (if s.pending != map[] then
            exists k | IsLeast(s.pending.Keys, k) ::
              s' == s.(pending := s.pending - {k}, workers := s.workers[w := Running(s.pending[k])],
                       place := Move(s, s.pending[k], OnWorker(w)))
          else if s.ready != [] then
            s' == s.(ready := s.ready[1..], workers := s.workers[w := Running(s.ready[0])],
                     place := Move(s, s.ready[0], OnWorker(w)))
          else s' == s)
    // z_task_rwcsem_acquire after a refusal
    case Wait(w, sem, op) =>
      && Runs(s, w) && sem in s.sems
      && var t := s.workers[w].task;
         s' == s.(sems := s.sems[sem := WithQueue(s.sems[sem], op, QueueOf(s.sems[sem], op) + [t])],
                  workers := s.workers[w := Idle], place := Move(s, t, WaitQueue(sem, op)))
    // z_task_rwcsem_release, up to the end of its critical section
    case Wake(w, sem, word, is_complete) =>
      && Runs(s, w) && sem in s.sems
      && var q := s.sems[sem];
         s' == s.(sems := s.sems[sem := Kept(q, word)],
                  workers := s.workers[w := Carrying(Some(s.workers[w].task), !is_complete, Drained(q, word))],
                  place := Taken(s.place, Drained(q, word), w))
    // z_global_add_pending_tasks on the task itself
    case Requeue(w) =>
      && Runs(s, w)
      && s' == s.(workers := s.workers[w := Carrying(Some(s.workers[w].task), true, NoWaiters)])
    // z_global_add_pending_ntasks
    case AddPending(w) =>
      && w in s.workers && s.workers[w].Carrying?
      && var c := s.workers[w];
         var tasks := Carried(c.own, c.requeue, c.chains);
         && (forall t | t in tasks :: t in s.itimes)
         && s' == s.(pending := File(s.pending, s.itimes, tasks),
                     workers := s.workers[w := if c.own.Some? && !c.requeue then Running(c.own.value) else Idle],
                     place := MoveAll(s.place, tasks, Pending))
    // z_task_free
    case Finish(w) =>
      && Runs(s, w)
      && s' == s.(workers := s.workers[w := Idle], place := s.place - {s.workers[w].task})
  }

  // ------------------------------------------------------------------ the invariant

  predicate Distinct(tasks: seq<TaskId>) { forall i, j | 0 <= i < j < |tasks| :: tasks[i] != tasks[j] }

  /** The task is at this place, read off the queues, the tree and the workers themselves. */
  predicate At(s: State, t: TaskId, p: Place) {
    match p
    case Ready => t in s.ready
    case Pending => t in s.itimes && s.itimes[t] in s.pending && s.pending[s.itimes[t]] == t
    case WaitQueue(sem, op) => sem in s.sems && t in QueueOf(s.sems[sem], op)
    case OnWorker(w) =>
      w in s.workers
      && (s.workers[w] == Running(t) || (s.workers[w].Carrying? && s.workers[w].own == Some(t)))
    case InHands(w, op) => w in s.workers && s.workers[w].Carrying? && t in QueueOf(s.workers[w].chains, op)
  }

  predicate QueuesDistinct(s: State) {
    && Distinct(s.ready)
    && (forall sem, op | sem in s.sems :: Distinct(QueueOf(s.sems[sem], op)))
    && (forall w, op | w in s.workers && s.workers[w].Carrying? :: Distinct(QueueOf(s.workers[w].chains, op)))
  }

  predicate TimesUnique(s: State) {
    && (forall t | t in s.itimes :: s.itimes[t] < s.req_id)
    && (forall t, u | t in s.itimes && u in s.itimes && t != u :: s.itimes[t] != s.itimes[u])
    && (forall k | k in s.pending :: s.pending[k] in s.itimes && s.itimes[s.pending[k]] == k)
    && InOrder(s.ready, s.itimes)
  }

  /** Oldest first. */
  predicate InOrder(tasks: seq<TaskId>, itimes: map<TaskId, nat>) {
    && (forall t | t in tasks :: t in itimes)
    && (forall i, j | 0 <= i < j < |tasks| :: itimes[tasks[i]] < itimes[tasks[j]])
  }

  ghost predicate PlacesExact(s: State) {
    && (forall t | t in s.place :: t in s.itimes)
    && (forall t, p :: At(s, t, p) <==> t in s.place && s.place[t] == p)
  }

  ghost predicate Inv(s: State) { QueuesDistinct(s) && TimesUnique(s) && PlacesExact(s) }

  // ------------------------------------------------------------------ filing a chain

  /** Filing tasks with distinct free times loses none and changes nothing else. */
  lemma {:induction false} FileExact(pending: map<nat, TaskId>, itimes: map<TaskId, nat>, tasks: seq<TaskId>)
    requires forall t | t in tasks :: t in itimes && itimes[t] !in pending
    requires forall i, j | 0 <= i < j < |tasks| :: itimes[tasks[i]] != itimes[tasks[j]]
    ensures forall t | t in tasks ::
              itimes[t] in File(pending, itimes, tasks) && File(pending, itimes, tasks)[itimes[t]] == t
    ensures forall k | k in pending ::
              k in File(pending, itimes, tasks) && File(pending, itimes, tasks)[k] == pending[k]
    ensures forall k | k in File(pending, itimes, tasks) && k !in pending ::
              File(pending, itimes, tasks)[k] in tasks && itimes[File(pending, itimes, tasks)[k]] == k
  {
    if tasks != [] {
      var init, last := tasks[..|tasks| - 1], tasks[|tasks| - 1];
      FileExact(pending, itimes, init);
      forall t | t in tasks
        ensures itimes[t] in File(pending, itimes, tasks) && File(pending, itimes, tasks)[itimes[t]] == t
      {
        if t != last { assert t in init; }
      }
    }
  }

  lemma OnePlace(s: State, t: TaskId, p: Place, q: Place)
    requires Inv(s) && At(s, t, p) && At(s, t, q)
    ensures p == q
  {
  }

  /** No task in hands, and no running task, has its time in the tree. */
  lemma NoCollision(s: State, t: TaskId, p: Place)
    requires Inv(s) && At(s, t, p) && p != Pending
    ensures t in s.itimes && s.itimes[t] !in s.pending
  {
    PendingAreOwn(s);
    assert t in s.place && t in s.itimes && !At(s, t, Pending);
  }

  /** A time found in the tree is there for its own task. */
  lemma PendingAreOwn(s: State)
    requires TimesUnique(s)
    ensures forall t | t in s.itimes && s.itimes[t] in s.pending :: At(s, t, Pending)
  {
    forall t | t in s.itimes && s.itimes[t] in s.pending ensures At(s, t, Pending) {
      var u := s.pending[s.itimes[t]];
      assert u in s.itimes && s.itimes[u] == s.itimes[t];
    }
  }

  lemma HandsAre(q: Waiters, t: TaskId)
    ensures t in Hands(q) <==> exists op :: t in QueueOf(q, op)
  {
    if t in Hands(q) {
      if t in q.readq { assert t in QueueOf(q, Read); }
      else if t in q.writeq { assert t in QueueOf(q, Write); }
      else if t in q.commitq { assert t in QueueOf(q, Commit); }
      else { assert t in QueueOf(q, Lock); }
    }
  }

  // ------------------------------------------------------------------- the steps

  lemma TimesKept(s: State, s': State)
    requires TimesUnique(s)
    requires s'.req_id == s.req_id && s'.itimes == s.itimes && s'.pending == s.pending && s'.ready == s.ready
    ensures TimesUnique(s')
  {
  }

  lemma SubmitKeeps(s: State, t: TaskId, s': State)
    requires Inv(s) && Next(s, Submit(t), s')
    ensures Inv(s')
  {
    assert !At(s, t, Ready);
    forall i, j | 0 <= i < j < |s'.ready| ensures s'.ready[i] != s'.ready[j] {
      assert s'.ready[i] in s.ready;
    }
    forall u, p ensures At(s', u, p) <==> u in s'.place && s'.place[u] == p {
      assert u != t && p != Pending ==> (At(s', u, p) <==> At(s, u, p));
      assert At(s, u, p) <==> u in s.place && s.place[u] == p;
    }
  }

  lemma FetchPendingKeeps(s: State, w: WorkerId, k: nat, s': State)
    requires Inv(s) && w in s.workers && s.workers[w].Idle? && k in s.pending
    requires s' == s.(pending := s.pending - {k}, workers := s.workers[w := Running(s.pending[k])],
                      place := Move(s, s.pending[k], OnWorker(w)))
    ensures Inv(s')
  {
    var t := s.pending[k];
    assert At(s, t, Pending);
    forall u, p ensures At(s', u, p) <==> u in s'.place && s'.place[u] == p {
      assert At(s, u, p) <==> u in s.place && s.place[u] == p;
      assert At(s, t, p) <==> p == Pending;
    }
  }

  lemma FetchReadyKeeps(s: State, w: WorkerId, s': State)
    requires Inv(s) && w in s.workers && s.workers[w].Idle? && s.ready != []
    requires s' == s.(ready := s.ready[1..], workers := s.workers[w := Running(s.ready[0])],
                      place := Move(s, s.ready[0], OnWorker(w)))
    ensures Inv(s')
  {
    var t := s.ready[0];
    assert At(s, t, Ready);
    assert s.ready == [t] + s'.ready;
    forall u, p ensures At(s', u, p) <==> u in s'.place && s'.place[u] == p {
      assert At(s, u, p) <==> u in s.place && s.place[u] == p;
      assert At(s, t, p) <==> p == Ready;
    }
  }

  lemma WaitQueues(s: State, w: WorkerId, sem: SemId, op: WaitFor, s': State)
    requires Inv(s) && Next(s, Wait(w, sem, op), s')
    ensures QueuesDistinct(s') && TimesUnique(s')
  {
    var t := s.workers[w].task;
    assert At(s, t, OnWorker(w));
    assert !At(s, t, WaitQueue(sem, op));
    forall sem', op' | sem' in s'.sems ensures Distinct(QueueOf(s'.sems[sem'], op')) {
      assert Distinct(QueueOf(s.sems[sem'], op'));
    }
  }

  lemma WaitPlaces(s: State, w: WorkerId, sem: SemId, op: WaitFor, s': State)
    requires Inv(s) && Next(s, Wait(w, sem, op), s')
    ensures PlacesExact(s')
  {
    var t := s.workers[w].task;
    assert At(s, t, OnWorker(w));
    forall u, p ensures At(s', u, p) <==> u in s'.place && s'.place[u] == p {
      assert At(s, u, p) <==> u in s.place && s.place[u] == p;
      assert At(s, t, p) <==> p == OnWorker(w);
    }
  }

  lemma FinishKeeps(s: State, w: WorkerId, s': State)
    requires Inv(s) && Next(s, Finish(w), s')
    ensures Inv(s')
  {
    var t := s.workers[w].task;
    TimesKept(s, s');
    assert At(s, t, OnWorker(w));
    forall u, p ensures At(s', u, p) <==> u in s'.place && s'.place[u] == p {
      assert At(s, u, p) <==> u in s.place && s.place[u] == p;
      assert At(s, t, p) <==> p == OnWorker(w);
    }
  }

  lemma RequeueKeeps(s: State, w: WorkerId, s': State)
    requires Inv(s) && Next(s, Requeue(w), s')
    ensures Inv(s')
  {
    TimesKept(s, s');
    forall u, p ensures At(s', u, p) <==> u in s'.place && s'.place[u] == p {
      assert At(s, u, p) <==> u in s.place && s.place[u] == p;
    }
  }

  // ---- waking

  predicate InSome(q: Waiters, t: TaskId) { exists op :: t in QueueOf(q, op) }

  lemma WakeQueues(s: State, w: WorkerId, sem: SemId, word: RwcSem.Word, done: bool, s': State)
    requires Inv(s) && Next(s, Wake(w, sem, word, done), s')
    ensures QueuesDistinct(s') && TimesUnique(s')
  {
    TimesKept(s, s');
    var q := s.sems[sem];
    forall op ensures Distinct(QueueOf(Kept(q, word), op)) && Distinct(QueueOf(Drained(q, word), op)) {
      assert Distinct(QueueOf(q, op));
    }
    forall sem', op | sem' in s'.sems ensures Distinct(QueueOf(s'.sems[sem'], op)) {
      assert sem' != sem ==> Distinct(QueueOf(s.sems[sem'], op));
    }
  }

  /** The place of a task after a drain. */
  lemma TakenExact(place: map<TaskId, Place>, q: Waiters, w: WorkerId, t: TaskId, op: WaitFor)
    requires forall op1, op2 | t in QueueOf(q, op1) && t in QueueOf(q, op2) :: op1 == op2
    ensures t in QueueOf(q, op) ==> t in Taken(place, q, w) && Taken(place, q, w)[t] == InHands(w, op)
    ensures !InSome(q, t) ==> (t in Taken(place, q, w) <==> t in place)
    ensures !InSome(q, t) && t in place ==> Taken(place, q, w)[t] == place[t]
  {
    assert t in q.readq <==> t in QueueOf(q, Read);
    assert t in q.writeq <==> t in QueueOf(q, Write);
    assert t in q.commitq <==> t in QueueOf(q, Commit);
    assert t in q.lockq <==> t in QueueOf(q, Lock);
  }

  lemma WakeDomain(s: State, w: WorkerId, sem: SemId, word: RwcSem.Word, done: bool, s': State)
    requires Inv(s) && Next(s, Wake(w, sem, word, done), s')
    ensures forall u | u in s'.place :: u in s'.itimes
  {
    var q := Drained(s.sems[sem], word);
    hide Taken;
    forall u | u in s'.place ensures u in s'.itimes {
      TakenAt(s, w, sem, word, u);
      if op :| u in QueueOf(q, op) { assert At(s, u, WaitQueue(sem, op)); }
    }
  }

  lemma WakePlaces(s: State, w: WorkerId, sem: SemId, word: RwcSem.Word, done: bool, s': State)
    requires Inv(s) && Next(s, Wake(w, sem, word, done), s')
    ensures PlacesExact(s')
  {
    hide Next, At, Inv;
    WakeDomain(s, w, sem, word, done, s');
    forall u, p ensures At(s', u, p) <==> u in s'.place && s'.place[u] == p {
      WakePlace(s, w, sem, word, done, s', u, p);
    }
  }

  lemma TakenAt(s: State, w: WorkerId, sem: SemId, word: RwcSem.Word, u: TaskId)
    requires Inv(s) && sem in s.sems
    ensures var q := Drained(s.sems[sem], word);
            && (forall op | u in QueueOf(q, op) ::
                  && At(s, u, WaitQueue(sem, op)) && u in Taken(s.place, q, w)
                  && Taken(s.place, q, w)[u] == InHands(w, op))
            && (!InSome(q, u) ==> (u in Taken(s.place, q, w) <==> u in s.place))
            && (!InSome(q, u) && u in s.place ==> Taken(s.place, q, w)[u] == s.place[u])
  {
    var q := Drained(s.sems[sem], word);
    forall op | u in QueueOf(q, op) ensures At(s, u, WaitQueue(sem, op)) {}
    forall op1, op2 | u in QueueOf(q, op1) && u in QueueOf(q, op2) ensures op1 == op2 {
      OnePlace(s, u, WaitQueue(sem, op1), WaitQueue(sem, op2));
    }
    forall op ensures u in QueueOf(q, op) ==> u in Taken(s.place, q, w) && Taken(s.place, q, w)[u] == InHands(w, op) {
      TakenExact(s.place, q, w, u, op);
    }
    TakenExact(s.place, q, w, u, Read);
  }

  /** A task that is drained: in the hands of `w`, and nowhere else. */
  lemma WakeDrained(s: State, w: WorkerId, sem: SemId, word: RwcSem.Word, done: bool, s': State, u: TaskId,
                    op: WaitFor, p: Place)
    requires Inv(s) && Next(s, Wake(w, sem, word, done), s') && u in QueueOf(Drained(s.sems[sem], word), op)
    ensures At(s', u, p) <==> p == InHands(w, op)
  {
    hide Taken, QueuesDistinct, TimesUnique;
    var here := WaitQueue(sem, op);
    assert At(s, u, here);
    assert At(s, u, p) <==> p == here;
    if p.InHands? && p.w == w && At(s', u, p) { assert At(s, u, WaitQueue(sem, p.op)); }
  }

  /** Any other task: where it was. */
  lemma WakeOther(s: State, w: WorkerId, sem: SemId, word: RwcSem.Word, done: bool, s': State, u: TaskId, p: Place)
    requires Inv(s) && Next(s, Wake(w, sem, word, done), s') && !InSome(Drained(s.sems[sem], word), u)
    ensures At(s', u, p) <==> At(s, u, p)
  {
    hide Taken, QueuesDistinct, TimesUnique, Drained, Kept;
    KeptOrDrained(s.sems[sem], word, u);
  }

  lemma WakePlace(s: State, w: WorkerId, sem: SemId, word: RwcSem.Word, done: bool, s': State, u: TaskId, p: Place)
    requires Inv(s) && Next(s, Wake(w, sem, word, done), s')
    ensures At(s', u, p) <==> u in s'.place && s'.place[u] == p
  {
    TakenAt(s, w, sem, word, u);
    hide Taken, At, QueuesDistinct, TimesUnique, Drained, Kept;
    assert At(s, u, p) <==> u in s.place && s.place[u] == p;
    if op :| u in QueueOf(Drained(s.sems[sem], word), op) {
      WakeDrained(s, w, sem, word, done, s', u, op, p);
    } else {
      WakeOther(s, w, sem, word, done, s', u, p);
    }
  }

  lemma KeptOrDrained(q: Waiters, word: RwcSem.Word, t: TaskId)
    requires !InSome(Drained(q, word), t)
    ensures forall op :: t in QueueOf(Kept(q, word), op) <==> t in QueueOf(q, op)
  {
    forall op ensures t in QueueOf(Kept(q, word), op) <==> t in QueueOf(q, op) {
      assert t !in QueueOf(Drained(q, word), op);
    }
  }

  // ---- filing

  predicate Carries(s: State, w: WorkerId) { w in s.workers && s.workers[w].Carrying? }

  /** What `w` is about to file. */
  function Load(s: State, w: WorkerId): seq<TaskId>
    requires Carries(s, w)
  {
    Carried(s.workers[w].own, s.workers[w].requeue, s.workers[w].chains)
  }

  predicate OwnTask(s: State, w: WorkerId, t: TaskId)
    requires Carries(s, w)
  {
    s.workers[w].own == Some(t) && s.workers[w].requeue
  }

  lemma LoadIs(s: State, w: WorkerId, t: TaskId)
    requires Carries(s, w)
    ensures t in Load(s, w) <==> OwnTask(s, w, t) || InSome(s.workers[w].chains, t)
  {
    HandsAre(s.workers[w].chains, t);
  }

  /** The place of a task that is about to be filed. */
  lemma LoadPlace(s: State, w: WorkerId, t: TaskId) returns (p: Place)
    requires Inv(s) && Carries(s, w) && t in Load(s, w)
    ensures At(s, t, p) && p != Pending && p != Ready && (p == OnWorker(w) || (p.InHands? && p.w == w))
    ensures t in s.place && s.place[t] == p && t in s.itimes && s.itimes[t] !in s.pending
  {
    LoadIs(s, w, t);
    if OwnTask(s, w, t) {
      p := OnWorker(w);
    } else {
      var op :| t in QueueOf(s.workers[w].chains, op);
      p := InHands(w, op);
    }
    assert At(s, t, p);
    NoCollision(s, t, p);
  }

  /** Five lists without repetition, no two of which share a task, have no repetition together. */
  lemma JoinDistinct(a: seq<TaskId>, b: seq<TaskId>)
    requires Distinct(a) && Distinct(b) && forall t | t in a :: t !in b
    ensures Distinct(a + b)
  {
    forall i, j | 0 <= i < j < |a + b| ensures (a + b)[i] != (a + b)[j] {
      if i < |a| <= j { assert a[i] in a && b[j - |a|] in b; }
    }
  }

  lemma ChainsApart(s: State, w: WorkerId, op1: WaitFor, op2: WaitFor)
    requires Inv(s) && Carries(s, w) && op1 != op2
    ensures forall t | t in QueueOf(s.workers[w].chains, op1) :: t !in QueueOf(s.workers[w].chains, op2)
    ensures Distinct(QueueOf(s.workers[w].chains, op1))
  {
    forall t | t in QueueOf(s.workers[w].chains, op1) ensures t !in QueueOf(s.workers[w].chains, op2) {
      if t in QueueOf(s.workers[w].chains, op2) { OnePlace(s, t, InHands(w, op1), InHands(w, op2)); }
    }
  }

  lemma HandsDistinct(s: State, w: WorkerId)
    requires Inv(s) && Carries(s, w)
    ensures Distinct(Hands(s.workers[w].chains))
  {
    var q := s.workers[w].chains;
    forall op1, op2 | op1 != op2
      ensures Distinct(QueueOf(q, op1)) && forall t | t in QueueOf(q, op1) :: t !in QueueOf(q, op2)
    {
      ChainsApart(s, w, op1, op2);
    }
    hide Inv, Distinct;
    assert QueueOf(q, Read) == q.readq && QueueOf(q, Write) == q.writeq;
    assert QueueOf(q, Commit) == q.commitq && QueueOf(q, Lock) == q.lockq;
    JoinDistinct(q.readq, q.writeq);
    JoinDistinct(q.readq + q.writeq, q.commitq);
    JoinDistinct(q.readq + q.writeq + q.commitq, q.lockq);
  }

  lemma LoadDistinct(s: State, w: WorkerId)
    requires Inv(s) && Carries(s, w)
    ensures Distinct(Load(s, w))
  {
    var c := s.workers[w];
    HandsDistinct(s, w);
    if c.own.Some? && c.requeue {
      var t := c.own.value;
      if t in Hands(c.chains) {
        HandsAre(c.chains, t);
        var op :| t in QueueOf(c.chains, op);
        OnePlace(s, t, OnWorker(w), InHands(w, op));
      }
      JoinDistinct([t], Hands(c.chains));
    } else {
      assert Load(s, w) == Hands(c.chains);
    }
  }

  /** Every task carried finds its place in the tree free. */
  lemma Filed(s: State, w: WorkerId)
    requires Inv(s) && Carries(s, w)
    ensures forall t | t in Load(s, w) :: t in s.place && t in s.itimes && s.itimes[t] !in s.pending
    ensures var after := File(s.pending, s.itimes, Load(s, w));
            && (forall t | t in Load(s, w) :: s.itimes[t] in after && after[s.itimes[t]] == t)
            && (forall k | k in s.pending :: k in after && after[k] == s.pending[k])
            && (forall k | k in after && k !in s.pending :: after[k] in Load(s, w) && s.itimes[after[k]] == k)
  {
    forall t | t in Load(s, w) ensures t in s.place && t in s.itimes && s.itimes[t] !in s.pending {
      var p := LoadPlace(s, w, t);
    }
    LoadDistinct(s, w);
    var tasks := Load(s, w);
    forall i, j | 0 <= i < j < |tasks| ensures s.itimes[tasks[i]] != s.itimes[tasks[j]] {
      assert tasks[i] in tasks && tasks[j] in tasks && tasks[i] != tasks[j];
    }
    FileExact(s.pending, s.itimes, Load(s, w));
  }

  lemma AddQueues(s: State, w: WorkerId, s': State)
    requires Inv(s) && Next(s, AddPending(w), s')
    ensures QueuesDistinct(s') && TimesUnique(s')
  {
    Filed(s, w);
    hide File, Carried, InOrder;
    forall w', op | w' in s'.workers && s'.workers[w'].Carrying? ensures Distinct(QueueOf(s'.workers[w'].chains, op)) {
      assert Distinct(QueueOf(s.workers[w'].chains, op));
    }
  }

  /** Nothing but the tree and worker `w` changes. */
  lemma AddElsewhere(s: State, w: WorkerId, s': State, u: TaskId, p: Place)
    requires Next(s, AddPending(w), s')
    requires p != Pending && p != OnWorker(w) && !(p.InHands? && p.w == w)
    ensures At(s', u, p) <==> At(s, u, p)
  {
    hide File, Carried;
  }

  /** The task of `w` that goes on is not among those filed. */
  lemma AddHere(s: State, w: WorkerId, s': State, u: TaskId)
    requires Inv(s) && Next(s, AddPending(w), s') && u in Load(s, w)
    ensures !At(s', u, OnWorker(w)) && forall op :: !At(s', u, InHands(w, op))
  {
    LoadIs(s, w, u);
    var c := s.workers[w];
    if c.own == Some(u) && !c.requeue {
      var op :| u in QueueOf(c.chains, op);
      OnePlace(s, u, OnWorker(w), InHands(w, op));
    }
    hide File, Carried, Inv;
  }

  lemma AddMoved(s: State, w: WorkerId, s': State, u: TaskId, p: Place)
    requires Inv(s) && Next(s, AddPending(w), s') && u in Load(s, w)
    ensures At(s', u, p) <==> p == Pending
  {
    var was := LoadPlace(s, w, u);
    AddHere(s, w, s', u);
    if p != Pending && p != OnWorker(w) && !(p.InHands? && p.w == w) {
      AddElsewhere(s, w, s', u, p);
      if At(s, u, p) { OnePlace(s, u, p, was); }
    }
    Filed(s, w);
    hide File, Carried, Inv;
  }

  lemma AddOther(s: State, w: WorkerId, s': State, u: TaskId, p: Place)
    requires Inv(s) && Next(s, AddPending(w), s') && u !in Load(s, w)
    ensures At(s', u, p) <==> At(s, u, p)
  {
    hide File, Carried, Inv;
    if p.Pending? { AddOtherPending(s, w, s', u); } else { AddOtherElsewhere(s, w, s', u, p); }
  }

  lemma AddOtherPending(s: State, w: WorkerId, s': State, u: TaskId)
    requires Inv(s) && Next(s, AddPending(w), s') && u !in Load(s, w)
    ensures At(s', u, Pending) <==> At(s, u, Pending)
  {
    hide File, Carried, Inv;
    Filed(s, w);
  }

  lemma AddOtherElsewhere(s: State, w: WorkerId, s': State, u: TaskId, p: Place)
    requires Inv(s) && Next(s, AddPending(w), s') && u !in Load(s, w) && !p.Pending?
    ensures At(s', u, p) <==> At(s, u, p)
  {
    hide File, Carried, Inv;
    LoadIs(s, w, u);
  }

  lemma AddPlaces(s: State, w: WorkerId, s': State)
    requires Inv(s) && Next(s, AddPending(w), s')
    ensures PlacesExact(s')
  {
    Filed(s, w);
    forall u, p ensures At(s', u, p) <==> u in s'.place && s'.place[u] == p {
      assert At(s, u, p) <==> u in s.place && s.place[u] == p;
      if u in Load(s, w) { AddMoved(s, w, s', u, p); } else { AddOther(s, w, s', u, p); }
    }
  }

  // --------------------------------------------------------------------- every run

  lemma FetchKeeps(s: State, w: WorkerId, s': State)
    requires Inv(s) && Next(s, Fetch(w), s')
    ensures Inv(s')
  {
    hide Inv;
    if s.pending != map[] {
      var k :| IsLeast(s.pending.Keys, k)
               && s' == s.(pending := s.pending - {k}, workers := s.workers[w := Running(s.pending[k])],
                           place := Move(s, s.pending[k], OnWorker(w)));
      FetchPendingKeeps(s, w, k, s');
    } else if s.ready != [] {
      FetchReadyKeeps(s, w, s');
    }
  }

  lemma Preserved(s: State, step: Step, s': State)
    requires Inv(s) && Next(s, step, s')
    ensures Inv(s')
  {
    hide Next, QueuesDistinct, TimesUnique, PlacesExact;
    match step
    case Submit(t) => SubmitKeeps(s, t, s');
    case Fetch(w) => FetchKeeps(s, w, s');
    case Wait(w, sem, op) => WaitQueues(s, w, sem, op, s'); WaitPlaces(s, w, sem, op, s');
    case Wake(w, sem, word, done) => WakeQueues(s, w, sem, word, done, s'); WakePlaces(s, w, sem, word, done, s');
    case Requeue(w) => RequeueKeeps(s, w, s');
    case AddPending(w) => AddQueues(s, w, s'); AddPlaces(s, w, s');
    case Finish(w) => FinishKeeps(s, w, s');
  }

  predicate Initial(s: State) {
    && s.req_id == 0 && s.itimes == map[] && s.ready == [] && s.pending == map[] && s.place == map[]
    && (forall sem | sem in s.sems :: s.sems[sem] == NoWaiters)
    && (forall w | w in s.workers :: s.workers[w] == Idle)
  }

  lemma InitialInv(s: State)
    requires Initial(s)
    ensures Inv(s)
  {
    forall t, p ensures !At(s, t, p) {
      match p
      case WaitQueue(sem, op) => assert QueueOf(NoWaiters, op) == [];
      case _ =>
    }
  }

  ghost predicate Run(states: seq<State>, steps: seq<Step>) {
    && |states| == |steps| + 1 && Initial(states[0])
    && forall i | 0 <= i < |steps| :: Next(states[i], steps[i], states[i + 1])
  }

  lemma {:induction false} Reached(states: seq<State>, steps: seq<Step>, i: nat)
    requires Run(states, steps) && i < |states|
    ensures Inv(states[i])
  {
    hide Inv, Next, Initial;
    if i == 0 {
      InitialInv(states[0]);
    } else {
      Reached(states, steps, i - 1);
      Preserved(states[i - 1], steps[i - 1], states[i]);
    }
  }

  /** The tasks submitted and not finished, counted from the steps alone. */
  function Unfinished(states: seq<State>, steps: seq<Step>, i: nat): set<TaskId>
    requires i < |states| && |states| == |steps| + 1
  {
    if i == 0 then {}
    else
      var before := Unfinished(states, steps, i - 1);
      match steps[i - 1]
      case Submit(t) => before + {t}
      case Finish(w) => if Runs(states[i - 1], w) then before - {states[i - 1].workers[w].task} else before
      case _ => before
  }

  lemma KeysKept(s: State, step: Step, s': State)
    requires Inv(s) && Next(s, step, s')
    ensures s'.place.Keys
            == match step
               case Submit(t) => s.place.Keys + {t}
               case Finish(w) => s.place.Keys - {s.workers[w].task}
               case _ => s.place.Keys
  {
    hide Inv;
    match step
    case Fetch(w) => FetchKeys(s, w, s');
    case Wait(w, sem, op) => RunningIsPlaced(s, w);
    case Wake(w, sem, word, done) => WakeKeys(s, w, sem, word, done, s');
    case AddPending(w) => Filed(s, w);
    case _ =>
  }

  lemma RunningIsPlaced(s: State, w: WorkerId)
    requires Inv(s) && Runs(s, w)
    ensures s.workers[w].task in s.place
  {
    assert At(s, s.workers[w].task, OnWorker(w));
  }

  lemma FetchKeys(s: State, w: WorkerId, s': State)
    requires Inv(s) && Next(s, Fetch(w), s')
    ensures s'.place.Keys == s.place.Keys
  {
    forall k | k in s.pending ensures s.pending[k] in s.place { assert At(s, s.pending[k], Pending); }
    if s.ready != [] { assert At(s, s.ready[0], Ready); }
  }

  lemma WakeKeys(s: State, w: WorkerId, sem: SemId, word: RwcSem.Word, done: bool, s': State)
    requires Inv(s) && Next(s, Wake(w, sem, word, done), s')
    ensures s'.place.Keys == s.place.Keys
  {
    var q := Drained(s.sems[sem], word);
    hide Taken;
    forall u ensures u in s'.place <==> u in s.place {
      TakenAt(s, w, sem, word, u);
      if op :| u in QueueOf(q, op) { assert At(s, u, WaitQueue(sem, op)); }
    }
  }

  lemma {:induction false} PlacedExactly(states: seq<State>, steps: seq<Step>, i: nat)
    requires Run(states, steps) && i < |states|
    ensures states[i].place.Keys == Unfinished(states, steps, i)
  {
    hide Inv, Next;
    if i > 0 {
      PlacedExactly(states, steps, i - 1);
      Reached(states, steps, i - 1);
      KeysKept(states[i - 1], steps[i - 1], states[i]);
      if steps[i - 1].Finish? { FinishRuns(states[i - 1], steps[i - 1].w, states[i]); }
    }
  }

  lemma FinishRuns(s: State, w: WorkerId, s': State)
    requires Next(s, Finish(w), s')
    ensures Runs(s, w)
  {
  }

  /** In every reachable state every task submitted and not finished is in exactly one place,
      and every other task in none; no queue holds a task twice. */
  lemma TaskConservation(states: seq<State>, steps: seq<Step>, i: nat, t: TaskId)
    requires Run(states, steps) && i < |states|
    ensures t in Unfinished(states, steps, i) <==> exists p :: At(states[i], t, p)
    ensures forall p, q | At(states[i], t, p) && At(states[i], t, q) :: p == q
    ensures QueuesDistinct(states[i])
  {
    hide Next, Initial, At;
    Reached(states, steps, i);
    PlacedExactly(states, steps, i);
    assert forall p :: At(states[i], t, p) <==> t in states[i].place && states[i].place[t] == p;
    if t in states[i].place { assert At(states[i], t, states[i].place[t]); }
  }

  /** A worker takes the pending task submitted first; if none is pending, the ready task
      submitted first. */
  lemma OldestFirst(states: seq<State>, steps: seq<Step>, i: nat)
    requires Run(states, steps) && i < |steps| && steps[i].Fetch?
    ensures var s, s', w := states[i], states[i + 1], steps[i].w;
            && (s.pending != map[] ==>
                  && Runs(s', w) && At(s, s'.workers[w].task, Pending)
                  && forall t | At(s, t, Pending) :: s.itimes[s'.workers[w].task] <= s.itimes[t])
            && (s.pending == map[] && s.ready != [] ==>
                  && Runs(s', w) && At(s, s'.workers[w].task, Ready)
                  && forall t | At(s, t, Ready) ::
                       t in s.itimes && s'.workers[w].task in s.itimes && s.itimes[s'.workers[w].task] <= s.itimes[t])
  {
    hide QueuesDistinct, PlacesExact, Initial;
    Reached(states, steps, i);
    var s := states[i];
    assert Next(s, steps[i], states[i + 1]);
  }
}
