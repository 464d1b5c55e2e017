/** Transactions over number objects as a state machine: the commit/rollback task of
    transaction.c, the object task of object.c and the number functions they call, with any
    number of tasks and transactions interleaved step by step. */
module TxnMachine {
  import opened Common
  import opened Calls
  import RwcSem

  type TaskId = nat

  // ------------------------------------------------------------------ objects

  /** A number: committed value, pending value, and the transaction that owns the pending one. */
  datatype Number = Number(read: int, write: int, owner: TxnId)

  datatype Holder = Nobody | TaskHolder(k: TaskId) | TxnHolder(t: TxnId)

  /** The last four fields are history variables: who holds the WRITE bit, who raised COMMIT,
      who reads, who raised LOCK. No step looks at them to decide. */
  datatype Object = Object(
    num: Number,
    sem: RwcSem.Word,
    pending: TxnId,
    holder: Holder,
    committer: Option<TaskId>,
    readers: set<TaskId>,
    locker: TxnId)

  // ------------------------------------------------------------- object tasks

  datatype Kind = Reading | Writing(call: Call)

  /** Where an object task stands. */
  datatype Pc =
    | Issued        // the transaction id is not looked up yet
    | LookedUp      // entry found, its read hold not acquired
    | Ready         // queued in its READ or WRITE state
    | PastGate      // saw pending_txn_id == 0, semaphore not acquired
    | ReadHeld      // holds READ
    | ReadDone
    | WriteHeld     // holds WRITE, the write function has not run
    | WriteFailed
    | Written       // the write function succeeded
    | Flagged       // COMMIT raised
    | Unswitched    // the switch failed, WRITE still held
    | CommitWait    // queued in its COMMIT state
    | CommitHeld    // holds COMMIT
    | CommitDone
    | Leaving       // object released, transaction not released
    | Gone

  /** `reply` is what the write function gave its caller. */
  datatype Task = Task(txn: TxnId, oid: Oid, kind: Kind, pc: Pc, reply: Reply)

  // ------------------------------------------------------------- transactions

  datatype TxnState = WaitCommit | DontCommit | CommittedState | RolledBack

  /** Where a transaction and its commit task stand. `commit` tells a commit from a rollback;
      `i` is the position of a loop in the group list. */
  datatype TxnPc =
    | Open
    | Removed(commit: bool)              // out of the cache, COMMIT not raised
    | Waiting(commit: bool)              // TXN_SCHED_ACQUIRE
    | AtBarrier(commit: bool)            // TXN_SCHED_BARRIER
    | Checking(commit: bool, i: nat)     // manager lock held, first loop
    | BarrierBusy(commit: bool)
    | Marking(commit: bool, i: nat)      // manager lock held, second loop
    | MarkingLock(commit: bool, i: nat)  // id stored, LOCK not raised
    | BarrierTaken(commit: bool)
    | Locking(commit: bool, i: nat)      // TXN_SCHED_LOCK
    | Applying(apply: bool, i: nat)      // TXN_SCHED_WRITE
    | Committing(apply: bool, i: nat)    // TXN_SCHED_COMMIT
    | Deciding(apply: bool)
    | Ending
    | Releasing(i: nat)                  // manager lock held
    | Clearing(i: nat)                   // LOCK released, id not cleared
    | Released
    | Closing
    | Finished

  /** A group of the object list. The atom embedded in number `o` is written `o`. */
  datatype Group = Group(oid: Oid, atoms: seq<Oid>)

  /** An apply or a revert of one atom. */
  datatype AtomEffect = Applied(oid: Oid) | Reverted(oid: Oid)

  /** The last six fields are history variables: the tasks that joined and have not released,
      the successful calls in order, whether a write failed, whether a commit was asked for,
      what was done to the atoms, and the position of the transaction in the history. */
  datatype Txn = Txn(
    sem: RwcSem.Word,
    state: TxnState,
    groups: seq<Group>,
    pc: TxnPc,
    joined: set<TaskId>,
    log: seq<Entry>,
    failed: bool,
    wants: bool,
    effects: seq<AtomEffect>,
    slot: nat)

  /** A value handed to a reader, with the length of the history and the transaction's own
      calls at that moment. */
  datatype Observation = Observation(txn: TxnId, oid: Oid, value: int, at: nat, own: seq<Entry>)

  datatype State = State(
    objs: map<Oid, Object>,
    txns: map<TxnId, Txn>,
    tasks: map<TaskId, Task>,
    cache: set<TxnId>,
    manager: TxnId,            // holder of the transaction manager's ticket lock
    history: seq<Event>,       // completed standalone writes and committed transactions
    seen: seq<Observation>)

  // ----------------------------------------------------------------- the steps

  datatype Step =
    | Issue(k: TaskId, t: TxnId, o: Oid, kind: Kind)
    | LookUp(k: TaskId)
    | Join(k: TaskId)
    | Gate(k: TaskId)
    | GrabRead(k: TaskId)
    | GrabWrite(k: TaskId)
    | Read(k: TaskId)
    | ReleaseRead(k: TaskId)
    | Write(k: TaskId)
    | RaiseCommit(k: TaskId)
    | Switch(k: TaskId)
    | ReleaseFailed(k: TaskId)
    | ReleaseUnswitched(k: TaskId)
    | GrabCommit(k: TaskId)
    | Commit(k: TaskId)
    | ReleaseCommit(k: TaskId)
    | Leave(k: TaskId)
    | Create(t: TxnId)
    | Submit(t: TxnId, commit: bool)
    | RaiseTxnCommit(t: TxnId)
    | AcquireTxn(t: TxnId)
    | TakeManager(t: TxnId)
    | Check(t: TxnId)
    | Mark(t: TxnId)
    | MarkLock(t: TxnId)
    | DropManager(t: TxnId)
    | LockObject(t: TxnId)
    | ApplyAtom(t: TxnId)
    | CommitObject(t: TxnId)
    | Decide(t: TxnId)
    | ReleaseObject(t: TxnId)
    | ClearPending(t: TxnId)
    | CloseTxn(t: TxnId)

  /** One undisturbed turn of a semaphore operation on the current word. */
  datatype Attempt = Refusal | Spin | Success(word: RwcSem.Word)

  function Try(op: RwcSem.Op, w: RwcSem.Word): Attempt {
    match RwcSem.Body(op, w)
    case Return(_) => Refusal
    case Cas(expected, next) => if w == expected then Success(next) else Spin
  }

  predicate TaskAt(s: State, k: TaskId, pc: Pc) {
    k in s.tasks && s.tasks[k].pc == pc && s.tasks[k].oid in s.objs
    && (s.tasks[k].txn != 0 && pc != Issued ==> s.tasks[k].txn in s.txns)
  }

  function MoveTask(s: State, k: TaskId, pc: Pc): State
    requires k in s.tasks
  {
    s.(tasks := s.tasks[k := s.tasks[k].(pc := pc)])
  }

  function MoveTxn(s: State, t: TxnId, pc: TxnPc): State
    requires t in s.txns
  {
    s.(txns := s.txns[t := s.txns[t].(pc := pc)])
  }

  function SetObject(s: State, o: Oid, ob: Object): State { s.(objs := s.objs[o := ob]) }

  // ---- object tasks

  /** raleighsl_exec_read / raleighsl_exec_write. */
  predicate CanIssue(s: State, k: TaskId, t: TxnId, o: Oid) { k !in s.tasks && o in s.objs }
  function DoIssue(s: State, k: TaskId, t: TxnId, o: Oid, kind: Kind): State {
    s.(tasks := s.tasks[k := Task(t, o, kind, if t == 0 then Ready else Issued, NoReply)])
  }

  /** raleighsl_transaction_acquire, first half: the cache lookup. */
  predicate CanLookUp(s: State, k: TaskId) { TaskAt(s, k, Issued) }
  function DoLookUp(s: State, k: TaskId): State
    requires CanLookUp(s, k)
  {
    MoveTask(s, k, if s.tasks[k].txn in s.cache then LookedUp else Gone)
  }

  /** Second half: z_rwcsem_try_acquire_read on the transaction found. */
  predicate CanJoin(s: State, k: TaskId) { TaskAt(s, k, LookedUp) && s.tasks[k].txn in s.txns }
  function DoJoin(s: State, k: TaskId): State
    requires CanJoin(s, k)
  {
    var t := s.tasks[k].txn;
    var txn := s.txns[t];
    match Try(RwcSem.AcquireRead, txn.sem)
    case Refusal => MoveTask(s, k, Gone)
    case Spin => s
    case Success(w) =>
      MoveTask(s.(txns := s.txns[t := txn.(sem := w, joined := txn.joined + {k})]), k, Ready)
  }

  /** The pending-transaction gate. A task that fails it is queued again. */
  predicate CanGate(s: State, k: TaskId) { TaskAt(s, k, Ready) }
  function DoGate(s: State, k: TaskId): State
    requires CanGate(s, k)
  {
    if s.objs[s.tasks[k].oid].pending != 0 then s else MoveTask(s, k, PastGate)
  }

  predicate CanGrabRead(s: State, k: TaskId) { TaskAt(s, k, PastGate) && s.tasks[k].kind.Reading? }
  function DoGrabRead(s: State, k: TaskId): State
    requires CanGrabRead(s, k)
  {
    var o := s.tasks[k].oid;
    var ob := s.objs[o];
    match Try(RwcSem.AcquireRead, ob.sem)
    case Refusal => MoveTask(s, k, Ready)
    case Spin => s
    case Success(w) => MoveTask(SetObject(s, o, ob.(sem := w, readers := ob.readers + {k})), k, ReadHeld)
  }

  predicate CanGrabWrite(s: State, k: TaskId) { TaskAt(s, k, PastGate) && s.tasks[k].kind.Writing? }
  function DoGrabWrite(s: State, k: TaskId): State
    requires CanGrabWrite(s, k)
  {
    var o := s.tasks[k].oid;
    var ob := s.objs[o];
    match Try(RwcSem.AcquireWrite, ob.sem)
    case Refusal => MoveTask(s, k, Ready)
    case Spin => s
    case Success(w) => MoveTask(SetObject(s, o, ob.(sem := w, holder := TaskHolder(k))), k, WriteHeld)
  }

  /** raleighsl_number_get. */
  function Visible(num: Number, t: TxnId): int {
    if t != 0 && num.owner == t then num.write else num.read
  }

  /** The calls of a transaction that has not finished; those of a finished one are in the history,
      or undone. */
  function OwnCalls(s: State, t: TxnId): seq<Entry> {
    if t in s.txns && !s.txns[t].pc.Finished? then s.txns[t].log else []
  }

  predicate CanRead(s: State, k: TaskId) { TaskAt(s, k, ReadHeld) }
  function DoRead(s: State, k: TaskId): State
    requires CanRead(s, k)
  {
    var task := s.tasks[k];
    var value := Visible(s.objs[task.oid].num, task.txn);
    MoveTask(s.(seen := s.seen + [Observation(task.txn, task.oid, value, |s.history|, OwnCalls(s, task.txn))]),
             k, ReadDone)
  }

  predicate CanReleaseRead(s: State, k: TaskId) { TaskAt(s, k, ReadDone) }
  function DoReleaseRead(s: State, k: TaskId): State
    requires CanReleaseRead(s, k)
  {
    var o := s.tasks[k].oid;
    var ob := s.objs[o];
    match Try(RwcSem.ReleaseRead, ob.sem)
    case Success(w) => MoveTask(SetObject(s, o, ob.(sem := w, readers := ob.readers - {k})), k, Leaving)
    case _ => s
  }

  /** raleighsl_transaction_add: the object's group, found or appended at the tail, takes the
      atom at its tail. */
  function AddAtom(groups: seq<Group>, o: Oid, atom: Oid): seq<Group> {
    if groups == [] then [Group(o, [atom])]
    else if groups[0].oid == o then [Group(o, groups[0].atoms + [atom])] + groups[1..]
    else [groups[0]] + AddAtom(groups[1..], o, atom)
  }

  /** raleighsl_number_set / cas / add / mul / div and what the scheduler does with a failure. */
  predicate CanWrite(s: State, k: TaskId) { TaskAt(s, k, WriteHeld) && s.tasks[k].kind.Writing? }
  function DoWrite(s: State, k: TaskId): State
    requires CanWrite(s, k)
  {
    var task := s.tasks[k];
    var ob := s.objs[task.oid];
    var outcome := Execute(task.kind.call, ob.num.write);
    if (ob.num.owner > 0 && ob.num.owner != task.txn) || outcome.Refused? then
      var s1 := MoveTask(s, k, WriteFailed);
      if task.txn == 0 then s1
      else s1.(txns := s.txns[task.txn := s.txns[task.txn].(state := DontCommit, failed := true)])
    else
      var s1 := s.(tasks := s.tasks[k := task.(pc := Written, reply := outcome.reply)],
                   objs := s.objs[task.oid := ob.(num := Number(ob.num.read, outcome.value, task.txn))]);
      if task.txn == 0 then s1
      else
        var txn := s.txns[task.txn];
        var groups := if ob.num.owner != task.txn then AddAtom(txn.groups, task.oid, task.oid) else txn.groups;
        s1.(txns := s.txns[task.txn := txn.(groups := groups,
                                            log := txn.log + [Entry(task.oid, task.kind.call, outcome.reply)])])
  }

  predicate CanRaiseCommit(s: State, k: TaskId) { TaskAt(s, k, Written) }
  function DoRaiseCommit(s: State, k: TaskId): State
    requires CanRaiseCommit(s, k)
  {
    var o := s.tasks[k].oid;
    var ob := s.objs[o];
    match Try(RwcSem.SetCommit, ob.sem)
    case Success(w) => MoveTask(SetObject(s, o, ob.(sem := w, committer := Some(k))), k, Flagged)
    case _ => s
  }

  /** z_rwcsem_try_switch from WRITE to COMMIT. */
  predicate CanSwitch(s: State, k: TaskId) { TaskAt(s, k, Flagged) }
  function DoSwitch(s: State, k: TaskId): State
    requires CanSwitch(s, k)
  {
    var switched := RwcSem.Body(RwcSem.SwitchToCommit, s.objs[s.tasks[k].oid].sem) == RwcSem.Return(true);
    MoveTask(s, k, if switched then CommitHeld else Unswitched)
  }

  function AfterWriteRelease(s: State, k: TaskId, pc: Pc): State
    requires k in s.tasks && s.tasks[k].oid in s.objs
  {
    var o := s.tasks[k].oid;
    var ob := s.objs[o];
    match Try(RwcSem.ReleaseWrite, ob.sem)
    case Success(w) => MoveTask(SetObject(s, o, ob.(sem := w, holder := Nobody)), k, pc)
    case _ => s
  }

  predicate CanReleaseFailed(s: State, k: TaskId) { TaskAt(s, k, WriteFailed) }
  function DoReleaseFailed(s: State, k: TaskId): State
    requires CanReleaseFailed(s, k)
  {
    AfterWriteRelease(s, k, Leaving)
  }

  predicate CanReleaseUnswitched(s: State, k: TaskId) { TaskAt(s, k, Unswitched) }
  function DoReleaseUnswitched(s: State, k: TaskId): State
    requires CanReleaseUnswitched(s, k)
  {
    AfterWriteRelease(s, k, CommitWait)
  }

  predicate CanGrabCommit(s: State, k: TaskId) { TaskAt(s, k, CommitWait) }
  function DoGrabCommit(s: State, k: TaskId): State
    requires CanGrabCommit(s, k)
  {
    var o := s.tasks[k].oid;
    var ob := s.objs[o];
    match Try(RwcSem.AcquireCommit, ob.sem)
    case Success(w) => MoveTask(SetObject(s, o, ob.(sem := w, holder := TaskHolder(k))), k, CommitHeld)
    case _ => s
  }

  /** __object_commit of number.c. */
  function CommitNumber(num: Number): Number {
    if num.owner == 0 then num.(read := num.write) else num
  }

  predicate CanCommit(s: State, k: TaskId) { TaskAt(s, k, CommitHeld) && s.tasks[k].kind.Writing? }
  function DoCommit(s: State, k: TaskId): State
    requires CanCommit(s, k)
  {
    var task := s.tasks[k];
    var ob := s.objs[task.oid];
    var s1 := MoveTask(SetObject(s, task.oid, ob.(num := CommitNumber(ob.num))), k, CommitDone);
    if task.txn == 0 then
      s1.(history := s.history + [Standalone(Entry(task.oid, task.kind.call, task.reply))])
    else s1
  }

  predicate CanReleaseCommit(s: State, k: TaskId) { TaskAt(s, k, CommitDone) }
  function DoReleaseCommit(s: State, k: TaskId): State
    requires CanReleaseCommit(s, k)
  {
    var o := s.tasks[k].oid;
    var ob := s.objs[o];
    match Try(RwcSem.ReleaseCommit, ob.sem)
    case Success(w) => MoveTask(SetObject(s, o, ob.(sem := w, holder := Nobody, committer := None)), k, Leaving)
    case _ => s
  }

  /** raleighsl_transaction_release. */
  predicate CanLeave(s: State, k: TaskId) { TaskAt(s, k, Leaving) }
  function DoLeave(s: State, k: TaskId): State
    requires CanLeave(s, k)
  {
    var t := s.tasks[k].txn;
    if t == 0 then MoveTask(s, k, Gone)
    else
      var txn := s.txns[t];
      match Try(RwcSem.ReleaseRead, txn.sem)
      case Success(w) =>
        MoveTask(s.(txns := s.txns[t := txn.(sem := w, joined := txn.joined - {k})]), k, Gone)
      case _ => s
  }

  // ---- transactions

  const NewTxn := Txn(RwcSem.Free, WaitCommit, [], Open, {}, [], false, false, [], 0)

  predicate CanCreate(s: State, t: TxnId) { t != 0 && t !in s.txns }
  function DoCreate(s: State, t: TxnId): State {
    s.(txns := s.txns[t := NewTxn], cache := s.cache + {t})
  }

  /** __txn_commit_task: whoever removes the entry from the cache owns the completion. */
  predicate CanSubmit(s: State, t: TxnId) { t in s.cache && t in s.txns }
  function DoSubmit(s: State, t: TxnId, commit: bool): State
    requires CanSubmit(s, t)
  {
    s.(cache := s.cache - {t}, txns := s.txns[t := s.txns[t].(pc := Removed(commit), wants := commit)])
  }

  predicate CanRaiseTxnCommit(s: State, t: TxnId) { t in s.txns && s.txns[t].pc.Removed? }
  function DoRaiseTxnCommit(s: State, t: TxnId): State
    requires CanRaiseTxnCommit(s, t)
  {
    var txn := s.txns[t];
    match Try(RwcSem.SetCommit, txn.sem)
    case Success(w) => s.(txns := s.txns[t := txn.(sem := w, pc := Waiting(txn.pc.commit))])
    case _ => s
  }

  predicate CanAcquireTxn(s: State, t: TxnId) { t in s.txns && s.txns[t].pc.Waiting? }
  function DoAcquireTxn(s: State, t: TxnId): State
    requires CanAcquireTxn(s, t)
  {
    var txn := s.txns[t];
    match Try(RwcSem.AcquireCommit, txn.sem)
    case Success(w) => s.(txns := s.txns[t := txn.(sem := w, pc := AtBarrier(txn.pc.commit))])
    case _ => s
  }

  predicate CanTakeManager(s: State, t: TxnId) {
    t in s.txns && (s.txns[t].pc.AtBarrier? || s.txns[t].pc.Ending?) && s.manager == 0
  }
  function DoTakeManager(s: State, t: TxnId): State
    requires CanTakeManager(s, t)
  {
    var pc := s.txns[t].pc;
    MoveTxn(s.(manager := t), t, if pc.AtBarrier? then Checking(pc.commit, 0) else Releasing(0))
  }

  /** Position `i` of a loop over the groups of `t`. */
  predicate AtGroup(s: State, t: TxnId, i: nat) {
    t in s.txns && i <= |s.txns[t].groups| && (i < |s.txns[t].groups| ==> s.txns[t].groups[i].oid in s.objs)
  }

  predicate CanCheck(s: State, t: TxnId) { t in s.txns && s.txns[t].pc.Checking? && AtGroup(s, t, s.txns[t].pc.i) }
  function DoCheck(s: State, t: TxnId): State
    requires CanCheck(s, t)
  {
    var pc, groups := s.txns[t].pc, s.txns[t].groups;
    MoveTxn(s, t,
      if pc.i == |groups| then Marking(pc.commit, 0)
      else if s.objs[groups[pc.i].oid].pending != 0 then BarrierBusy(pc.commit)
      else Checking(pc.commit, pc.i + 1))
  }

  predicate CanMark(s: State, t: TxnId) { t in s.txns && s.txns[t].pc.Marking? && AtGroup(s, t, s.txns[t].pc.i) }
  function DoMark(s: State, t: TxnId): State
    requires CanMark(s, t)
  {
    var pc, groups := s.txns[t].pc, s.txns[t].groups;
    if pc.i == |groups| then MoveTxn(s, t, BarrierTaken(pc.commit))
    else
      var o := groups[pc.i].oid;
      MoveTxn(SetObject(s, o, s.objs[o].(pending := t)), t, MarkingLock(pc.commit, pc.i))
  }

  predicate CanMarkLock(s: State, t: TxnId) {
    t in s.txns && s.txns[t].pc.MarkingLock? && AtGroup(s, t, s.txns[t].pc.i) && s.txns[t].pc.i < |s.txns[t].groups|
  }
  function DoMarkLock(s: State, t: TxnId): State
    requires CanMarkLock(s, t)
  {
    var pc := s.txns[t].pc;
    var o := s.txns[t].groups[pc.i].oid;
    match Try(RwcSem.SetLock, s.objs[o].sem)
    case Success(w) => MoveTxn(SetObject(s, o, s.objs[o].(sem := w, locker := t)), t, Marking(pc.commit, pc.i + 1))
    case _ => s
  }

  predicate CanDropManager(s: State, t: TxnId) {
    t in s.txns && (s.txns[t].pc.BarrierBusy? || s.txns[t].pc.BarrierTaken? || s.txns[t].pc.Released?)
  }
  function DoDropManager(s: State, t: TxnId): State
    requires CanDropManager(s, t)
  {
    var pc := s.txns[t].pc;
    MoveTxn(s.(manager := 0), t,
      if pc.BarrierBusy? then AtBarrier(pc.commit)
      else if pc.BarrierTaken? then Locking(pc.commit, 0)
      else Closing)
  }

  /** The TXN_SCHED_LOCK loop; at its end the decision to apply or to revert is made. */
  predicate CanLockObject(s: State, t: TxnId) { t in s.txns && s.txns[t].pc.Locking? && AtGroup(s, t, s.txns[t].pc.i) }
  function DoLockObject(s: State, t: TxnId): State
    requires CanLockObject(s, t)
  {
    var txn := s.txns[t];
    var pc := txn.pc;
    if pc.i == |txn.groups| then MoveTxn(s, t, Applying(pc.commit && txn.state != DontCommit, 0))
    else
      var o := txn.groups[pc.i].oid;
      match Try(RwcSem.AcquireLock, s.objs[o].sem)
      case Success(w) =>
        MoveTxn(SetObject(s, o, s.objs[o].(sem := w, holder := TxnHolder(t))), t, Locking(pc.commit, pc.i + 1))
      case _ => s
  }

  /** __object_apply and __object_revert of number.c. */
  function ApplyNumber(num: Number): Number { num.(read := num.write, owner := 0) }
  function RevertNumber(num: Number): Number { num.(write := num.read, owner := 0) }

  /** One turn of the TXN_SCHED_WRITE loops: the next atom of the group, or the next group. */
  predicate CanApplyAtom(s: State, t: TxnId) { t in s.txns && s.txns[t].pc.Applying? && AtGroup(s, t, s.txns[t].pc.i) }
  function DoApplyAtom(s: State, t: TxnId): State
    requires CanApplyAtom(s, t)
  {
    var txn := s.txns[t];
    var apply, i := txn.pc.apply, txn.pc.i;
    if i == |txn.groups| then MoveTxn(s, t, Committing(apply, 0))
    else
      var group := txn.groups[i];
      if group.atoms == [] then MoveTxn(s, t, Applying(apply, i + 1))
      else
        var ob := s.objs[group.oid];
        var num := if apply then ApplyNumber(ob.num) else RevertNumber(ob.num);
        var effect := if apply then Applied(group.atoms[0]) else Reverted(group.atoms[0]);
        SetObject(s, group.oid, ob.(num := num)).(
          txns := s.txns[t := txn.(groups := txn.groups[i := group.(atoms := group.atoms[1..])],
                                   effects := txn.effects + [effect])])
  }

  predicate CanCommitObject(s: State, t: TxnId) {
    t in s.txns && s.txns[t].pc.Committing? && AtGroup(s, t, s.txns[t].pc.i)
  }
  function DoCommitObject(s: State, t: TxnId): State
    requires CanCommitObject(s, t)
  {
    var txn := s.txns[t];
    var apply, i := txn.pc.apply, txn.pc.i;
    if i == |txn.groups| then MoveTxn(s, t, Deciding(apply))
    else
      var o := txn.groups[i].oid;
      MoveTxn(SetObject(s, o, s.objs[o].(num := CommitNumber(s.objs[o].num))), t, Committing(apply, i + 1))
  }

  /** The final state of the transaction. */
  predicate CanDecide(s: State, t: TxnId) { t in s.txns && s.txns[t].pc.Deciding? }
  function DoDecide(s: State, t: TxnId): State
    requires CanDecide(s, t)
  {
    var txn := s.txns[t];
    if txn.pc.apply && txn.state != DontCommit then
      s.(txns := s.txns[t := txn.(state := CommittedState, pc := Ending, slot := |s.history|)],
         history := s.history + [Committed(t, txn.log)])
    else
      s.(txns := s.txns[t := txn.(state := RolledBack, pc := Ending)])
  }

  predicate CanReleaseObject(s: State, t: TxnId) {
    t in s.txns && s.txns[t].pc.Releasing? && AtGroup(s, t, s.txns[t].pc.i)
  }
  function DoReleaseObject(s: State, t: TxnId): State
    requires CanReleaseObject(s, t)
  {
    var txn := s.txns[t];
    var i := txn.pc.i;
    if i == |txn.groups| then MoveTxn(s, t, Released)
    else
      var o := txn.groups[i].oid;
      match Try(RwcSem.ReleaseLock, s.objs[o].sem)
      case Success(w) =>
        MoveTxn(SetObject(s, o, s.objs[o].(sem := w, holder := Nobody, locker := 0)), t, Clearing(i))
      case _ => s
  }

  predicate CanClearPending(s: State, t: TxnId) {
    t in s.txns && s.txns[t].pc.Clearing? && AtGroup(s, t, s.txns[t].pc.i) && s.txns[t].pc.i < |s.txns[t].groups|
  }
  function DoClearPending(s: State, t: TxnId): State
    requires CanClearPending(s, t)
  {
    var i := s.txns[t].pc.i;
    var o := s.txns[t].groups[i].oid;
    MoveTxn(SetObject(s, o, s.objs[o].(pending := 0)), t, Releasing(i + 1))
  }

  predicate CanCloseTxn(s: State, t: TxnId) { t in s.txns && s.txns[t].pc.Closing? }
  function DoCloseTxn(s: State, t: TxnId): State
    requires CanCloseTxn(s, t)
  {
    var txn := s.txns[t];
    match Try(RwcSem.ReleaseCommit, txn.sem)
    case Success(w) => s.(txns := s.txns[t := txn.(sem := w, pc := Finished)])
    case _ => s
  }

  // -------------------------------------------------------- the whole relation

  /** The step `step` is possible in `s` and leads to `s'`. */
  predicate Next(s: State, step: Step, s': State) {
    NextTask(s, step, s') || NextTxn(s, step, s')
  }

  predicate NextTask(s: State, step: Step, s': State) {
    match step
    case Issue(k, t, o, kind) => CanIssue(s, k, t, o) && s' == DoIssue(s, k, t, o, kind)
    case LookUp(k) => CanLookUp(s, k) && s' == DoLookUp(s, k)
    case Join(k) => CanJoin(s, k) && s' == DoJoin(s, k)
    case Gate(k) => CanGate(s, k) && s' == DoGate(s, k)
    case GrabRead(k) => CanGrabRead(s, k) && s' == DoGrabRead(s, k)
    case GrabWrite(k) => CanGrabWrite(s, k) && s' == DoGrabWrite(s, k)
    case Read(k) => CanRead(s, k) && s' == DoRead(s, k)
    case ReleaseRead(k) => CanReleaseRead(s, k) && s' == DoReleaseRead(s, k)
    case Write(k) => CanWrite(s, k) && s' == DoWrite(s, k)
    case RaiseCommit(k) => CanRaiseCommit(s, k) && s' == DoRaiseCommit(s, k)
    case Switch(k) => CanSwitch(s, k) && s' == DoSwitch(s, k)
    case ReleaseFailed(k) => CanReleaseFailed(s, k) && s' == DoReleaseFailed(s, k)
    case ReleaseUnswitched(k) => CanReleaseUnswitched(s, k) && s' == DoReleaseUnswitched(s, k)
    case GrabCommit(k) => CanGrabCommit(s, k) && s' == DoGrabCommit(s, k)
    case Commit(k) => CanCommit(s, k) && s' == DoCommit(s, k)
    case ReleaseCommit(k) => CanReleaseCommit(s, k) && s' == DoReleaseCommit(s, k)
    case Leave(k) => CanLeave(s, k) && s' == DoLeave(s, k)
    case _ => false
  }

  predicate NextTxn(s: State, step: Step, s': State) {
    match step
    case Create(t) => CanCreate(s, t) && s' == DoCreate(s, t)
    case Submit(t, commit) => CanSubmit(s, t) && s' == DoSubmit(s, t, commit)
    case RaiseTxnCommit(t) => CanRaiseTxnCommit(s, t) && s' == DoRaiseTxnCommit(s, t)
    case AcquireTxn(t) => CanAcquireTxn(s, t) && s' == DoAcquireTxn(s, t)
    case TakeManager(t) => CanTakeManager(s, t) && s' == DoTakeManager(s, t)
    case Check(t) => CanCheck(s, t) && s' == DoCheck(s, t)
    case Mark(t) => CanMark(s, t) && s' == DoMark(s, t)
    case MarkLock(t) => CanMarkLock(s, t) && s' == DoMarkLock(s, t)
    case DropManager(t) => CanDropManager(s, t) && s' == DoDropManager(s, t)
    case LockObject(t) => CanLockObject(s, t) && s' == DoLockObject(s, t)
    case ApplyAtom(t) => CanApplyAtom(s, t) && s' == DoApplyAtom(s, t)
    case CommitObject(t) => CanCommitObject(s, t) && s' == DoCommitObject(s, t)
    case Decide(t) => CanDecide(s, t) && s' == DoDecide(s, t)
    case ReleaseObject(t) => CanReleaseObject(s, t) && s' == DoReleaseObject(s, t)
    case ClearPending(t) => CanClearPending(s, t) && s' == DoClearPending(s, t)
    case CloseTxn(t) => CanCloseTxn(s, t) && s' == DoCloseTxn(s, t)
    case _ => false
  }

  /** The write of a task that looked its transaction up before the submission and acquired it
      after it had finished. */
  predicate LateWrite(s: State, k: TaskId)
    requires CanWrite(s, k)
  {
    s.tasks[k].txn != 0 && s.txns[s.tasks[k].txn].pc.Finished?
  }

  /** An acquisition that goes through finds room in the reader field. */
  predicate RoomToRead(w: RwcSem.Word) { Try(RwcSem.AcquireRead, w).Success? ==> w.readers < RwcSem.MAX_READERS }

  /** Runs the theorems cover. Reader counts stay below 2^29 and written values stay 64-bit;
      no read hold spans a write release; and no task writes through a transaction that has
      finished. */
  predicate InScope(s: State, step: Step) {
    match step
    case GrabRead(k) => CanGrabRead(s, k) ==> RoomToRead(s.objs[s.tasks[k].oid].sem)
    case Join(k) => CanJoin(s, k) ==> RoomToRead(s.txns[s.tasks[k].txn].sem)
    case ReleaseFailed(k) => CanReleaseFailed(s, k) ==> s.objs[s.tasks[k].oid].readers == {}
    case ReleaseUnswitched(k) => CanReleaseUnswitched(s, k) ==> s.objs[s.tasks[k].oid].readers == {}
    case Write(k) =>
      CanWrite(s, k) ==>
        var num := s.objs[s.tasks[k].oid].num;
        var outcome := Execute(s.tasks[k].kind.call, num.write);
        && !LateWrite(s, k)
        && ((num.owner == 0 || num.owner == s.tasks[k].txn) && outcome.Done? ==> InRange(outcome.value))
    case _ => true
  }

  predicate Initial(s: State) {
    && s.txns == map[] && s.tasks == map[] && s.cache == {} && s.manager == 0 && s.history == [] && s.seen == []
    && forall o | o in s.objs :: s.objs[o] == Object(Number(0, 0, 0), RwcSem.Free, 0, Nobody, None, {}, 0)
  }
}
