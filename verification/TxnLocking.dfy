/** Who holds what: the invariant that ties the semaphore words, the pending ids, the manager
    lock and the group lists to the positions of tasks and transactions. */
module TxnLocking {
  import opened Common
  import opened Calls
  import opened TxnMachine
  import RwcSem

  // ------------------------------------------------------- what a position implies

  predicate HoldsWrite(pc: Pc) { pc.WriteHeld? || pc.WriteFailed? || pc.Written? || pc.Flagged? || pc.Unswitched? }
  predicate HoldsCommit(pc: Pc) { pc.CommitHeld? || pc.CommitDone? }
  predicate HoldsExclusive(pc: Pc) { HoldsWrite(pc) || HoldsCommit(pc) }
  predicate HoldsRead(pc: Pc) { pc.ReadHeld? || pc.ReadDone? }
  predicate RaisedCommit(pc: Pc) { pc.Flagged? || pc.Unswitched? || pc.CommitWait? || pc.CommitHeld? || pc.CommitDone? }
  predicate IsJoined(pc: Pc) { !pc.Issued? && !pc.LookedUp? && !pc.Gone? }
  predicate WritingPc(pc: Pc) { HoldsExclusive(pc) || RaisedCommit(pc) }

  /** The half-open range [0] .. [1] of a list of `n` groups. */
  type Range = (nat, nat)
  predicate In(i: nat, r: Range) { r.0 <= i < r.1 }

  /** The groups whose object carries this transaction's id. */
  function PendingRange(pc: TxnPc, n: nat): Range {
    match pc
    case Marking(_, i) => (0, i)
    case MarkingLock(_, i) => (0, i + 1)
    case BarrierTaken(_) => (0, n)
    case Locking(_, _) => (0, n)
    case Applying(_, _) => (0, n)
    case Committing(_, _) => (0, n)
    case Deciding(_) => (0, n)
    case Ending => (0, n)
    case Releasing(i) => (i, n)
    case Clearing(i) => (i, n)
    case _ => (0, 0)
  }

  /** The groups whose object has LOCK raised by this transaction. */
  function LockRange(pc: TxnPc, n: nat): Range {
    match pc
    case MarkingLock(_, i) => (0, i)
    case Clearing(i) => (i + 1, n)
    case _ => PendingRange(pc, n)
  }

  /** The groups whose object is locked by this transaction. */
  function HeldRange(pc: TxnPc, n: nat): Range {
    match pc
    case Marking(_, _) => (0, 0)
    case MarkingLock(_, _) => (0, 0)
    case BarrierTaken(_) => (0, 0)
    case Locking(_, i) => (0, i)
    case _ => LockRange(pc, n)
  }

  predicate UsesManager(pc: TxnPc) {
    pc.Checking? || pc.BarrierBusy? || pc.Marking? || pc.MarkingLock? || pc.BarrierTaken?
    || pc.Releasing? || pc.Clearing? || pc.Released?
  }

  predicate CommitRaised(pc: TxnPc) { !pc.Open? && !pc.Removed? && !pc.Finished? }
  predicate CommitAcquired(pc: TxnPc) { CommitRaised(pc) && !pc.Waiting? }

  predicate CursorFits(pc: TxnPc, n: nat) {
    match pc
    case Checking(_, i) => i <= n
    case Marking(_, i) => i <= n
    case MarkingLock(_, i) => i < n
    case Locking(_, i) => i <= n
    case Applying(_, i) => i <= n
    case Committing(_, i) => i <= n
    case Releasing(i) => i <= n
    case Clearing(i) => i < n
    case _ => true
  }

  /** The position of the group of `o`, or the length of the list. */
  function IndexOf(groups: seq<Group>, o: Oid): (i: nat)
    ensures i <= |groups|
    ensures i < |groups| ==> groups[i].oid == o
    ensures i == |groups| <==> forall g | g in groups :: g.oid != o
  {
    if groups == [] then 0
    else if groups[0].oid == o then 0
    else 1 + IndexOf(groups[1..], o)
  }

  /** `o` has a group, at a position of the range. */
  predicate Has(groups: seq<Group>, o: Oid, r: Range) {
    IndexOf(groups, o) < |groups| && In(IndexOf(groups, o), r)
  }

  predicate DistinctGroups(groups: seq<Group>) {
    forall i, j | 0 <= i < j < |groups| :: groups[i].oid != groups[j].oid
  }

  lemma IndexUnique(groups: seq<Group>, i: nat)
    requires DistinctGroups(groups) && i < |groups|
    ensures IndexOf(groups, groups[i].oid) == i
  {
    assert groups[i] in groups;
  }

  // ------------------------------------------------------------- the invariant

  ghost predicate ObjectOk(s: State, o: Oid)
    requires o in s.objs
  {
    var ob := s.objs[o];
    && ob.sem == RwcSem.Word(|ob.readers|, ob.holder != Nobody, ob.committer.Some?, ob.locker != 0)
    && |ob.readers| <= RwcSem.MAX_READERS
    && (forall k | k in ob.readers :: k in s.tasks && s.tasks[k].oid == o && HoldsRead(s.tasks[k].pc))
    && (match ob.holder
        case Nobody => true
        case TaskHolder(k) =>
          && k in s.tasks && s.tasks[k].oid == o && HoldsExclusive(s.tasks[k].pc)
          && (HoldsCommit(s.tasks[k].pc) ==> ob.readers == {} && ob.committer == Some(k))
        case TxnHolder(t) =>
          && ob.committer == None && ob.readers == {} && t != 0 && ob.locker == t
          && t in s.txns && Has(s.txns[t].groups, o, HeldRange(s.txns[t].pc, |s.txns[t].groups|)))
    && (ob.committer.Some? ==>
          var k := ob.committer.value;
          && k in s.tasks && s.tasks[k].oid == o && RaisedCommit(s.tasks[k].pc)
          && (ob.holder == Nobody || ob.holder == TaskHolder(k)))
    && (ob.locker != 0 ==>
          var t := ob.locker;
          t in s.txns && Has(s.txns[t].groups, o, LockRange(s.txns[t].pc, |s.txns[t].groups|)))
    && (ob.pending != 0 ==>
          var t := ob.pending;
          t in s.txns && Has(s.txns[t].groups, o, PendingRange(s.txns[t].pc, |s.txns[t].groups|)))
  }

  predicate TaskOk(s: State, k: TaskId)
    requires k in s.tasks
  {
    var task := s.tasks[k];
    && task.oid in s.objs
    && (HoldsExclusive(task.pc) ==> s.objs[task.oid].holder == TaskHolder(k))
    && (RaisedCommit(task.pc) ==> s.objs[task.oid].committer == Some(k))
    && (HoldsRead(task.pc) ==> k in s.objs[task.oid].readers)
    && (WritingPc(task.pc) ==> task.kind.Writing?)
    && (task.txn != 0 && (IsJoined(task.pc) || task.pc == LookedUp) ==> task.txn in s.txns)
    && (task.txn != 0 && IsJoined(task.pc) ==> k in s.txns[task.txn].joined)
  }

  ghost predicate TxnOk(s: State, t: TxnId)
    requires t in s.txns
  {
    var txn := s.txns[t];
    var n := |txn.groups|;
    && t != 0
    && txn.sem == RwcSem.Word(|txn.joined|, CommitAcquired(txn.pc), CommitRaised(txn.pc), false)
    && |txn.joined| <= RwcSem.MAX_READERS
    && (forall k | k in txn.joined :: k in s.tasks && s.tasks[k].txn == t && IsJoined(s.tasks[k].pc))
    && (CommitAcquired(txn.pc) ==> txn.joined == {})
    && (t in s.cache <==> txn.pc.Open?)
    && DistinctGroups(txn.groups)
    && (forall i | 0 <= i < n :: txn.groups[i].oid in s.objs)
    && CursorFits(txn.pc, n)
    && (UsesManager(txn.pc) ==> s.manager == t)
    && (forall i | 0 <= i < n :: GroupOk(s.objs[txn.groups[i].oid], t, txn.pc, i, n))
  }

  predicate GroupOk(ob: Object, t: TxnId, pc: TxnPc, i: nat, n: nat) {
    && (In(i, PendingRange(pc, n)) ==> ob.pending == t)
    && (In(i, LockRange(pc, n)) ==> ob.locker == t)
    && (In(i, HeldRange(pc, n)) ==> ob.holder == TxnHolder(t))
    && (pc.Checking? && i < pc.i ==> ob.pending == 0)
    && (pc.Marking? && i >= pc.i ==> ob.pending == 0)
    && (pc.MarkingLock? && i > pc.i ==> ob.pending == 0)
  }

  ghost predicate ObjectsOk(s: State) { forall o | o in s.objs :: ObjectOk(s, o) }
  predicate TasksOk(s: State) { forall k | k in s.tasks :: TaskOk(s, k) }
  ghost predicate TxnsOk(s: State) { forall t | t in s.txns :: TxnOk(s, t) }
  predicate ManagerOk(s: State) { s.manager != 0 ==> s.manager in s.txns && UsesManager(s.txns[s.manager].pc) }
  predicate CacheOk(s: State) { forall t | t in s.cache :: t in s.txns }

  ghost predicate LockInv(s: State) {
    ObjectsOk(s) && TasksOk(s) && TxnsOk(s) && ManagerOk(s) && CacheOk(s)
  }

  lemma InitialLockInv(s: State)
    requires Initial(s)
    ensures LockInv(s)
  {
  }

  // ------------------------------------------------ one task moves: what others see

  /** Nothing about the object changed for anybody but task `k` and transaction `t`. */
  predicate SameForOthers(ob: Object, ob': Object, k: TaskId, t: TxnId) {
    && (ob.holder.TaskHolder? && ob.holder.k != k ==> ob'.holder == ob.holder)
    && (ob.holder.TxnHolder? && ob.holder.t != t ==> ob'.holder == ob.holder)
    && (ob.committer.Some? && ob.committer.value != k ==> ob'.committer == ob.committer)
    && (forall k' | k' in ob.readers && k' != k :: k' in ob'.readers)
    && (ob.pending != 0 && ob.pending != t ==> ob'.pending == ob.pending)
    && (ob.locker != 0 && ob.locker != t ==> ob'.locker == ob.locker)
    && (t == 0 ==> ob'.pending == ob.pending && ob'.locker == ob.locker)
  }

  /** Task `k`, its object and its transaction may change; the transaction stays where it is. */
  ghost predicate TaskStep(s: State, s': State, k: TaskId)
    requires k in s.tasks
  {
    var o, t := s.tasks[k].oid, s.tasks[k].txn;
    && s'.tasks.Keys == s.tasks.Keys && s'.objs.Keys == s.objs.Keys && s'.txns.Keys == s.txns.Keys
    && s'.manager == s.manager && s'.cache == s.cache
    && (forall k' | k' in s.tasks && k' != k :: s'.tasks[k'] == s.tasks[k'])
    && (forall o' | o' in s.objs && o' != o :: s'.objs[o'] == s.objs[o'])
    && (forall t' | t' in s.txns && t' != t :: s'.txns[t'] == s.txns[t'])
    && s'.tasks[k].oid == o && s'.tasks[k].txn == t
    && o in s.objs
    && SameForOthers(s.objs[o], s'.objs[o], k, 0)
    && (t in s.txns ==>
          && s'.txns[t].pc == s.txns[t].pc
          && (forall k' | k' in s.txns[t].joined && k' != k :: k' in s'.txns[t].joined)
          && (s'.txns[t].groups == s.txns[t].groups || AtRest(s.txns[t].pc)))
  }

  /** The commit task of the transaction is not at work. */
  predicate AtRest(pc: TxnPc) { pc.Open? || pc.Removed? || pc.Waiting? || pc.Finished? }

  lemma OtherObjectsKeep(s: State, s': State, k: TaskId, o: Oid)
    requires k in s.tasks && TaskStep(s, s', k) && o in s.objs && o != s.tasks[k].oid
    requires ObjectOk(s, o)
    ensures ObjectOk(s', o)
  {
    hide PendingRange, LockRange, HeldRange, AtRest, SameForOthers;
    forall t | t in s.txns && AtRest(s.txns[t].pc) ensures RangesEmpty(s.txns[t].pc, |s.txns[t].groups|) {
      NoRangeAtRest(s.txns[t].pc, |s.txns[t].groups|);
    }
  }

  predicate RangesEmpty(pc: TxnPc, n: nat) {
    PendingRange(pc, n) == (0, 0) && LockRange(pc, n) == (0, 0) && HeldRange(pc, n) == (0, 0)
  }

  lemma NoRangeAtRest(pc: TxnPc, n: nat)
    requires AtRest(pc)
    ensures RangesEmpty(pc, n)
  {
  }

  lemma OtherTasksKeep(s: State, s': State, k: TaskId, k': TaskId)
    requires k in s.tasks && TaskStep(s, s', k) && k' in s.tasks && k' != k
    requires TaskOk(s, k')
    ensures TaskOk(s', k')
  {
  }

  lemma OtherTxnsKeep(s: State, s': State, k: TaskId, t: TxnId)
    requires k in s.tasks && TaskStep(s, s', k) && t in s.txns && t != s.tasks[k].txn
    requires TxnOk(s, t)
    ensures TxnOk(s', t)
  {
  }

  // ------------------------------------------- one semaphore operation, undisturbed

  lemma TryReads(w: RwcSem.Word)
    ensures Try(RwcSem.AcquireRead, w)
            == if w.commit then Refusal else if w.lock then Spin else Success(RwcSem.Increment(w))
    ensures Try(RwcSem.ReleaseRead, w) == Success(RwcSem.Decrement(w))
  {
  }

  lemma TryWrites(w: RwcSem.Word)
    ensures Try(RwcSem.AcquireWrite, w)
            == if w.commit || w.write then Refusal else if w.lock then Spin else Success(w.(write := true))
    ensures Try(RwcSem.ReleaseWrite, w) == Success(RwcSem.Word(0, false, w.commit, w.lock))
  {
  }

  lemma TryCommits(w: RwcSem.Word)
    ensures Try(RwcSem.SetCommit, w) == Success(w.(commit := true))
    ensures Try(RwcSem.AcquireCommit, w)
            == if w == RwcSem.Word(0, false, true, false) then Success(w.(write := true)) else Refusal
    ensures Try(RwcSem.ReleaseCommit, w) == Success(RwcSem.Word(0, false, false, w.lock))
  {
  }

  lemma TryLocks(w: RwcSem.Word)
    ensures Try(RwcSem.SetLock, w) == Success(w.(lock := true))
    ensures Try(RwcSem.AcquireLock, w)
            == if w == RwcSem.Word(0, false, false, true) then Success(w.(write := true)) else Refusal
    ensures Try(RwcSem.ReleaseLock, w) == Success(RwcSem.Free)
  {
  }

  lemma Enter(holders: set<TaskId>, k: TaskId)
    requires k !in holders
    ensures |holders + {k}| == |holders| + 1
  {
  }

  lemma Exit(holders: set<TaskId>, k: TaskId)
    requires k in holders
    ensures |holders - {k}| == |holders| - 1
  {
  }

  /** The task, its object and its transaction are as they should be. */
  ghost predicate LocalOk(s: State, k: TaskId) {
    && k in s.tasks && s.tasks[k].oid in s.objs
    && ObjectOk(s, s.tasks[k].oid) && TaskOk(s, k)
    && (s.tasks[k].txn in s.txns ==> TxnOk(s, s.tasks[k].txn))
    && (s.tasks[k].txn in s.cache ==> s.tasks[k].txn in s.txns)
  }

  lemma TaskStepKeeps(s: State, s': State, k: TaskId)
    requires LockInv(s) && k in s.tasks && TaskStep(s, s', k) && LocalOk(s', k)
    ensures LockInv(s')
  {
    hide ObjectOk, TaskOk, TxnOk;
    forall o | o in s'.objs ensures ObjectOk(s', o) {
      if o != s.tasks[k].oid { OtherObjectsKeep(s, s', k, o); }
    }
    forall k' | k' in s'.tasks ensures TaskOk(s', k') {
      if k' != k { OtherTasksKeep(s, s', k, k'); }
    }
    forall t | t in s'.txns ensures TxnOk(s', t) {
      if t != s.tasks[k].txn { OtherTxnsKeep(s, s', k, t); }
    }
  }

  lemma LookUpSteps(s: State, k: TaskId)
    requires CanLookUp(s, k) && LocalOk(s, k)
    ensures TaskStep(s, DoLookUp(s, k), k)
  {
  }

  lemma LookUpHere(s: State, k: TaskId)
    requires CanLookUp(s, k) && LocalOk(s, k)
    ensures LocalOk(DoLookUp(s, k), k)
  {
  }

  lemma LookUpLocal(s: State, k: TaskId)
    requires CanLookUp(s, k) && LocalOk(s, k)
    ensures TaskStep(s, DoLookUp(s, k), k) && LocalOk(DoLookUp(s, k), k)
  {
    hide TaskStep, LocalOk, DoLookUp;
    LookUpSteps(s, k);
    LookUpHere(s, k);
  }

  /** A move between two positions that hold nothing. */
  lemma IdleMove(s: State, k: TaskId, pc: Pc)
    requires LocalOk(s, k)
    requires !HoldsExclusive(pc) && !HoldsRead(pc) && !RaisedCommit(pc) && !pc.LookedUp?
    requires var was := s.tasks[k].pc; !HoldsExclusive(was) && !HoldsRead(was) && !RaisedCommit(was)
    requires IsJoined(pc) == IsJoined(s.tasks[k].pc)
    ensures TaskStep(s, MoveTask(s, k, pc), k) && LocalOk(MoveTask(s, k, pc), k)
  {
  }

  lemma JoinTxn(s: State, k: TaskId)
    requires CanJoin(s, k) && LocalOk(s, k) && InScope(s, Join(k))
    requires Try(RwcSem.AcquireRead, s.txns[s.tasks[k].txn].sem).Success?
    ensures TxnOk(DoJoin(s, k), s.tasks[k].txn)
  {
    hide Try, ObjectOk;
    var txn := s.txns[s.tasks[k].txn];
    TryReads(txn.sem);
    assert k !in txn.joined;
    Enter(txn.joined, k);
  }

  lemma JoinLocal(s: State, k: TaskId)
    requires CanJoin(s, k) && LocalOk(s, k) && InScope(s, Join(k))
    ensures TaskStep(s, DoJoin(s, k), k) && LocalOk(DoJoin(s, k), k)
  {
    hide Try, TxnOk, ObjectOk, TaskOk;
    match Try(RwcSem.AcquireRead, s.txns[s.tasks[k].txn].sem)
    case Refusal => LostRace(s, k);
    case Spin =>
    case Success(w) =>
      JoinTxn(s, k);
      JoinTask(s, k);
  }

  lemma JoinTask(s: State, k: TaskId)
    requires CanJoin(s, k) && LocalOk(s, k)
    requires Try(RwcSem.AcquireRead, s.txns[s.tasks[k].txn].sem).Success?
    ensures ObjectOk(DoJoin(s, k), s.tasks[k].oid)
    ensures TaskOk(DoJoin(s, k), k)
  {
    hide Try, TxnOk;
  }

  /** The transaction is closed: the task ends without having joined. */
  lemma LostRace(s: State, k: TaskId)
    requires LocalOk(s, k) && s.tasks[k].pc == LookedUp
    ensures TaskStep(s, MoveTask(s, k, Gone), k) && LocalOk(MoveTask(s, k, Gone), k)
  {
  }

  lemma GateSteps(s: State, k: TaskId)
    requires CanGate(s, k) && LocalOk(s, k)
    ensures TaskStep(s, DoGate(s, k), k)
  {
  }

  lemma GateHere(s: State, k: TaskId)
    requires CanGate(s, k) && LocalOk(s, k)
    ensures LocalOk(DoGate(s, k), k)
  {
  }

  lemma GateLocal(s: State, k: TaskId)
    requires CanGate(s, k) && LocalOk(s, k)
    ensures TaskStep(s, DoGate(s, k), k) && LocalOk(DoGate(s, k), k)
  {
    hide TaskStep, LocalOk, DoGate;
    GateSteps(s, k);
    GateHere(s, k);
  }

  lemma GrabReadObject(s: State, k: TaskId)
    requires CanGrabRead(s, k) && LocalOk(s, k) && InScope(s, GrabRead(k))
    requires Try(RwcSem.AcquireRead, s.objs[s.tasks[k].oid].sem).Success?
    ensures ObjectOk(DoGrabRead(s, k), s.tasks[k].oid)
  {
    hide Try, TxnOk;
    var ob := s.objs[s.tasks[k].oid];
    TryReads(ob.sem);
    assert k !in ob.readers;
    Enter(ob.readers, k);
  }

  lemma GrabReadLocal(s: State, k: TaskId)
    requires CanGrabRead(s, k) && LocalOk(s, k) && InScope(s, GrabRead(k))
    ensures TaskStep(s, DoGrabRead(s, k), k) && LocalOk(DoGrabRead(s, k), k)
  {
    hide Try, ObjectOk;
    match Try(RwcSem.AcquireRead, s.objs[s.tasks[k].oid].sem)
    case Refusal => IdleMove(s, k, Ready);
    case Spin =>
    case Success(w) => GrabReadObject(s, k);
  }

  lemma GrabWriteObject(s: State, k: TaskId)
    requires CanGrabWrite(s, k) && LocalOk(s, k)
    requires Try(RwcSem.AcquireWrite, s.objs[s.tasks[k].oid].sem).Success?
    ensures ObjectOk(DoGrabWrite(s, k), s.tasks[k].oid)
    ensures s.objs[s.tasks[k].oid].holder == Nobody
  {
    hide Try, TxnOk;
    TryWrites(s.objs[s.tasks[k].oid].sem);
  }

  lemma GrabWriteLocal(s: State, k: TaskId)
    requires CanGrabWrite(s, k) && LocalOk(s, k)
    ensures TaskStep(s, DoGrabWrite(s, k), k) && LocalOk(DoGrabWrite(s, k), k)
  {
    hide Try, ObjectOk;
    match Try(RwcSem.AcquireWrite, s.objs[s.tasks[k].oid].sem)
    case Refusal => IdleMove(s, k, Ready);
    case Spin =>
    case Success(w) => GrabWriteObject(s, k);
  }

  lemma ReadSteps(s: State, k: TaskId)
    requires CanRead(s, k) && LocalOk(s, k)
    ensures TaskStep(s, DoRead(s, k), k)
  {
  }

  lemma ReadHere(s: State, k: TaskId)
    requires CanRead(s, k) && LocalOk(s, k)
    ensures LocalOk(DoRead(s, k), k)
  {
  }

  lemma ReadLocal(s: State, k: TaskId)
    requires CanRead(s, k) && LocalOk(s, k)
    ensures TaskStep(s, DoRead(s, k), k) && LocalOk(DoRead(s, k), k)
  {
    hide TaskStep, LocalOk, DoRead;
    ReadSteps(s, k);
    ReadHere(s, k);
  }

  lemma ReleaseReadObject(s: State, k: TaskId)
    requires CanReleaseRead(s, k) && LocalOk(s, k)
    ensures ObjectOk(DoReleaseRead(s, k), s.tasks[k].oid)
    ensures Try(RwcSem.ReleaseRead, s.objs[s.tasks[k].oid].sem).Success?
  {
    hide Try, TxnOk;
    var ob := s.objs[s.tasks[k].oid];
    TryReads(ob.sem);
    Exit(ob.readers, k);
  }

  lemma ReleaseReadLocal(s: State, k: TaskId)
    requires CanReleaseRead(s, k) && LocalOk(s, k)
    ensures TaskStep(s, DoReleaseRead(s, k), k) && LocalOk(DoReleaseRead(s, k), k)
  {
    hide Try, ObjectOk;
    ReleaseReadObject(s, k);
  }

  /** Adding an atom keeps the order of the groups and never makes a second group. */
  lemma {:induction false} AddAtomGroups(groups: seq<Group>, o: Oid, atom: Oid)
    ensures var after := AddAtom(groups, o, atom);
            && |groups| <= |after| <= |groups| + 1
            && (forall i | 0 <= i < |groups| :: after[i].oid == groups[i].oid)
            && (|after| == |groups| + 1 <==> forall g | g in groups :: g.oid != o)
            && (|after| == |groups| + 1 ==> after == groups + [Group(o, [atom])])
  {
    if groups != [] && groups[0].oid != o {
      AddAtomGroups(groups[1..], o, atom);
      var after := AddAtom(groups, o, atom);
      assert after[1..] == AddAtom(groups[1..], o, atom);
      assert groups == [groups[0]] + groups[1..];
      forall i | 0 <= i < |groups| ensures after[i].oid == groups[i].oid {
        if i > 0 { assert after[i] == after[1..][i - 1] && groups[i] == groups[1..][i - 1]; }
      }
    }
  }

  lemma WriteObject(s: State, k: TaskId)
    requires CanWrite(s, k) && LocalOk(s, k)
    requires s.tasks[k].txn != 0 ==> AtRest(s.txns[s.tasks[k].txn].pc)
    ensures ObjectOk(DoWrite(s, k), s.tasks[k].oid)
  {
    hide TxnOk, TaskOk, DoWrite, PendingRange, LockRange, HeldRange;
    WriteFrame(s, k);
    var t := s.tasks[k].txn;
    if t != 0 { NoRangeAtRest(s.txns[t].pc, |s.txns[t].groups|); }
  }

  lemma WriteTask(s: State, k: TaskId)
    requires CanWrite(s, k) && LocalOk(s, k)
    ensures TaskOk(DoWrite(s, k), k)
  {
    hide TxnOk, ObjectOk, DoWrite;
    WriteFrame(s, k);
  }

  /** What the write function leaves alone. */
  lemma WriteFrame(s: State, k: TaskId)
    requires CanWrite(s, k)
    ensures var o, t, s' := s.tasks[k].oid, s.tasks[k].txn, DoWrite(s, k);
            && s'.tasks.Keys == s.tasks.Keys && s'.objs.Keys == s.objs.Keys && s'.txns.Keys == s.txns.Keys
            && (forall k' | k' in s.tasks && k' != k :: s'.tasks[k'] == s.tasks[k'])
            && (forall t' | t' in s.txns && (t' != t || t == 0) :: s'.txns[t'] == s.txns[t'])
            && s'.objs[o] == s.objs[o].(num := s'.objs[o].num)
            && s'.tasks[k] == s.tasks[k].(pc := s'.tasks[k].pc, reply := s'.tasks[k].reply)
            && (s'.tasks[k].pc.Written? || s'.tasks[k].pc.WriteFailed?)
            && (t != 0 ==> s'.txns[t].joined == s.txns[t].joined && s'.txns[t].pc == s.txns[t].pc)
  {
    hide Execute, AddAtom;
  }

  /** While a task is joined its transaction is not past the acquisition of its semaphore, or it
      has finished. */
  lemma JoinedMeansEarly(s: State, k: TaskId)
    requires LocalOk(s, k) && IsJoined(s.tasks[k].pc) && s.tasks[k].txn != 0
    ensures s.tasks[k].txn in s.txns && AtRest(s.txns[s.tasks[k].txn].pc)
  {
    hide ObjectOk;
    assert k in s.txns[s.tasks[k].txn].joined;
  }

  lemma EarlyGroupOk(ob: Object, t: TxnId, pc: TxnPc, i: nat, n: nat)
    requires AtRest(pc)
    ensures GroupOk(ob, t, pc, i, n)
  {
  }

  lemma DistinctAfterAdd(groups: seq<Group>, o: Oid, atom: Oid)
    requires DistinctGroups(groups)
    ensures DistinctGroups(AddAtom(groups, o, atom))
    ensures forall i | 0 <= i < |AddAtom(groups, o, atom)| ::
              AddAtom(groups, o, atom)[i].oid == o || (i < |groups| && AddAtom(groups, o, atom)[i].oid == groups[i].oid)
  {
    AddAtomGroups(groups, o, atom);
    var after := AddAtom(groups, o, atom);
    forall i, j | 0 <= i < j < |after| ensures after[i].oid != after[j].oid {
      if j == |groups| { assert groups[i] in groups; }
    }
  }

  lemma WriteTxn(s: State, k: TaskId)
    requires CanWrite(s, k) && LocalOk(s, k) && s.tasks[k].txn != 0
    requires AtRest(s.txns[s.tasks[k].txn].pc)
    ensures TxnOk(DoWrite(s, k), s.tasks[k].txn)
  {
    hide ObjectOk, GroupOk, Execute;
    var s', t, o := DoWrite(s, k), s.tasks[k].txn, s.tasks[k].oid;
    DistinctAfterAdd(s.txns[t].groups, o, o);
    var groups := s'.txns[t].groups;
    forall i | 0 <= i < |groups| ensures GroupOk(s'.objs[groups[i].oid], t, s'.txns[t].pc, i, |groups|) {
      EarlyGroupOk(s'.objs[groups[i].oid], t, s'.txns[t].pc, i, |groups|);
    }
  }

  lemma WriteSteps(s: State, k: TaskId)
    requires CanWrite(s, k)
    requires s.tasks[k].txn != 0 ==> AtRest(s.txns[s.tasks[k].txn].pc)
    ensures TaskStep(s, DoWrite(s, k), k)
  {
    hide Execute, AddAtom;
  }

  lemma WriteLocal(s: State, k: TaskId)
    requires CanWrite(s, k) && LocalOk(s, k)
    ensures TaskStep(s, DoWrite(s, k), k) && LocalOk(DoWrite(s, k), k)
  {
    hide ObjectOk, TaskOk, TxnOk, TaskStep, Execute, AddAtom;
    if s.tasks[k].txn != 0 {
      JoinedMeansEarly(s, k);
      WriteTxn(s, k);
    } else {
      NoTxn(s, k);
    }
    WriteObject(s, k);
    WriteTask(s, k);
    WriteSteps(s, k);
  }

  lemma NoTxn(s: State, k: TaskId)
    requires LocalOk(s, k) && s.tasks[k].txn == 0
    ensures 0 !in s.txns
  {
    hide ObjectOk, TaskOk;
  }

  lemma RaiseCommitSteps(s: State, k: TaskId)
    requires CanRaiseCommit(s, k) && LocalOk(s, k)
    ensures TaskStep(s, DoRaiseCommit(s, k), k)
  {
    hide Try;
    TryCommits(s.objs[s.tasks[k].oid].sem);
  }

  lemma RaiseCommitHere(s: State, k: TaskId)
    requires CanRaiseCommit(s, k) && LocalOk(s, k)
    ensures LocalOk(DoRaiseCommit(s, k), k)
  {
    hide Try;
    TryCommits(s.objs[s.tasks[k].oid].sem);
  }

  lemma RaiseCommitLocal(s: State, k: TaskId)
    requires CanRaiseCommit(s, k) && LocalOk(s, k)
    ensures TaskStep(s, DoRaiseCommit(s, k), k) && LocalOk(DoRaiseCommit(s, k), k)
  {
    hide TaskStep, LocalOk, DoRaiseCommit;
    RaiseCommitSteps(s, k);
    RaiseCommitHere(s, k);
  }

  lemma SwitchSteps(s: State, k: TaskId)
    requires CanSwitch(s, k) && LocalOk(s, k)
    ensures TaskStep(s, DoSwitch(s, k), k)
  {
  }

  lemma SwitchHere(s: State, k: TaskId)
    requires CanSwitch(s, k) && LocalOk(s, k)
    ensures LocalOk(DoSwitch(s, k), k)
  {
  }

  lemma SwitchLocal(s: State, k: TaskId)
    requires CanSwitch(s, k) && LocalOk(s, k)
    ensures TaskStep(s, DoSwitch(s, k), k) && LocalOk(DoSwitch(s, k), k)
  {
    hide TaskStep, LocalOk, DoSwitch;
    SwitchSteps(s, k);
    SwitchHere(s, k);
  }

  lemma ReleaseFailedSteps(s: State, k: TaskId)
    requires CanReleaseFailed(s, k) && LocalOk(s, k) && InScope(s, ReleaseFailed(k))
    ensures TaskStep(s, DoReleaseFailed(s, k), k)
  {
    hide Try;
    TryWrites(s.objs[s.tasks[k].oid].sem);
  }

  lemma ReleaseFailedHere(s: State, k: TaskId)
    requires CanReleaseFailed(s, k) && LocalOk(s, k) && InScope(s, ReleaseFailed(k))
    ensures LocalOk(DoReleaseFailed(s, k), k)
  {
    hide Try;
    TryWrites(s.objs[s.tasks[k].oid].sem);
  }

  lemma ReleaseFailedLocal(s: State, k: TaskId)
    requires CanReleaseFailed(s, k) && LocalOk(s, k) && InScope(s, ReleaseFailed(k))
    ensures TaskStep(s, DoReleaseFailed(s, k), k) && LocalOk(DoReleaseFailed(s, k), k)
  {
    hide TaskStep, LocalOk, DoReleaseFailed;
    ReleaseFailedSteps(s, k);
    ReleaseFailedHere(s, k);
  }

  lemma ReleaseUnswitchedSteps(s: State, k: TaskId)
    requires CanReleaseUnswitched(s, k) && LocalOk(s, k) && InScope(s, ReleaseUnswitched(k))
    ensures TaskStep(s, DoReleaseUnswitched(s, k), k)
  {
    hide Try;
    TryWrites(s.objs[s.tasks[k].oid].sem);
  }

  lemma ReleaseUnswitchedHere(s: State, k: TaskId)
    requires CanReleaseUnswitched(s, k) && LocalOk(s, k) && InScope(s, ReleaseUnswitched(k))
    ensures LocalOk(DoReleaseUnswitched(s, k), k)
  {
    hide Try;
    TryWrites(s.objs[s.tasks[k].oid].sem);
  }

  lemma ReleaseUnswitchedLocal(s: State, k: TaskId)
    requires CanReleaseUnswitched(s, k) && LocalOk(s, k) && InScope(s, ReleaseUnswitched(k))
    ensures TaskStep(s, DoReleaseUnswitched(s, k), k) && LocalOk(DoReleaseUnswitched(s, k), k)
  {
    hide TaskStep, LocalOk, DoReleaseUnswitched;
    ReleaseUnswitchedSteps(s, k);
    ReleaseUnswitchedHere(s, k);
  }

  lemma GrabCommitLocal(s: State, k: TaskId)
    requires CanGrabCommit(s, k) && LocalOk(s, k)
    ensures TaskStep(s, DoGrabCommit(s, k), k) && LocalOk(DoGrabCommit(s, k), k)
  {
    hide Try;
    TryCommits(s.objs[s.tasks[k].oid].sem);
  }

  lemma CommitSteps(s: State, k: TaskId)
    requires CanCommit(s, k) && LocalOk(s, k)
    ensures TaskStep(s, DoCommit(s, k), k)
  {
  }

  lemma CommitHere(s: State, k: TaskId)
    requires CanCommit(s, k) && LocalOk(s, k)
    ensures LocalOk(DoCommit(s, k), k)
  {
  }

  lemma CommitLocal(s: State, k: TaskId)
    requires CanCommit(s, k) && LocalOk(s, k)
    ensures TaskStep(s, DoCommit(s, k), k) && LocalOk(DoCommit(s, k), k)
  {
    hide TaskStep, LocalOk, DoCommit;
    CommitSteps(s, k);
    CommitHere(s, k);
  }

  lemma ReleaseCommitSteps(s: State, k: TaskId)
    requires CanReleaseCommit(s, k) && LocalOk(s, k)
    ensures TaskStep(s, DoReleaseCommit(s, k), k)
  {
    hide Try;
    TryCommits(s.objs[s.tasks[k].oid].sem);
  }

  lemma ReleaseCommitHere(s: State, k: TaskId)
    requires CanReleaseCommit(s, k) && LocalOk(s, k)
    ensures LocalOk(DoReleaseCommit(s, k), k)
  {
    hide Try;
    TryCommits(s.objs[s.tasks[k].oid].sem);
  }

  lemma ReleaseCommitLocal(s: State, k: TaskId)
    requires CanReleaseCommit(s, k) && LocalOk(s, k)
    ensures TaskStep(s, DoReleaseCommit(s, k), k) && LocalOk(DoReleaseCommit(s, k), k)
  {
    hide TaskStep, LocalOk, DoReleaseCommit;
    ReleaseCommitSteps(s, k);
    ReleaseCommitHere(s, k);
  }

  lemma LeaveSteps(s: State, k: TaskId)
    requires CanLeave(s, k) && LocalOk(s, k)
    ensures TaskStep(s, DoLeave(s, k), k)
  {
    hide Try;
    if s.tasks[k].txn != 0 {
      var txn := s.txns[s.tasks[k].txn];
      TryReads(txn.sem);
      Exit(txn.joined, k);
    }
  }

  lemma LeaveHere(s: State, k: TaskId)
    requires CanLeave(s, k) && LocalOk(s, k)
    ensures LocalOk(DoLeave(s, k), k)
  {
    hide Try;
    if s.tasks[k].txn != 0 {
      var txn := s.txns[s.tasks[k].txn];
      TryReads(txn.sem);
      Exit(txn.joined, k);
    }
  }

  lemma LeaveLocal(s: State, k: TaskId)
    requires CanLeave(s, k) && LocalOk(s, k)
    ensures TaskStep(s, DoLeave(s, k), k) && LocalOk(DoLeave(s, k), k)
  {
    hide TaskStep, LocalOk, DoLeave;
    LeaveSteps(s, k);
    LeaveHere(s, k);
  }


  // ------------------------------------------------ one transaction moves

  /** Transaction `t`, the objects in `touched` (at most one) and the manager may change; no
      task does. */
  ghost predicate TxnStep(s: State, s': State, t: TxnId, touched: set<Oid>)
    requires t in s.txns
  {
    && s'.tasks == s.tasks && s'.objs.Keys == s.objs.Keys && s'.txns.Keys == s.txns.Keys
    && (forall o | o in s.objs && o !in touched :: s'.objs[o] == s.objs[o])
    && (forall t' | t' in s.txns && t' != t :: s'.txns[t'] == s.txns[t'])
    && (forall o | o in s.objs && o in touched :: Fair(s, s.objs[o], s'.objs[o], t))
    && (s'.manager == s.manager || (s.manager == 0 && s'.manager == t) || (s.manager == t && s'.manager == 0))
    && (forall t' | t' in s.txns && t' != t :: t' in s'.cache <==> t' in s.cache)
    && s'.cache <= s.cache
    && s'.txns[t].joined == s.txns[t].joined
    // the other objects of `t` keep their place in its ranges
    && SameOids(s.txns[t].groups, s'.txns[t].groups)
    && forall i | 0 <= i < |s.txns[t].groups| && s.txns[t].groups[i].oid !in touched ::
         SamePlace(s.txns[t].pc, s'.txns[t].pc, i, |s.txns[t].groups|)
  }

  /** What `t` did to an object concerns neither tasks nor other transactions. */
  predicate Fair(s: State, ob: Object, ob': Object, t: TxnId) {
    && (ob.holder.TaskHolder? ==> ob'.holder == ob.holder)
    && (ob.holder.TxnHolder? && ob.holder.t != t ==> ob'.holder == ob.holder)
    && ob'.committer == ob.committer
    && ob'.readers == ob.readers
    && (ob.pending != 0 && ob.pending != t ==> ob'.pending == ob.pending)
    && (ob.locker != 0 && ob.locker != t ==> ob'.locker == ob.locker)
    && (ob'.pending != ob.pending ==> s.manager == t)
  }

  predicate SameOids(a: seq<Group>, b: seq<Group>) {
    |a| == |b| && forall i | 0 <= i < |a| :: a[i].oid == b[i].oid
  }

  predicate SamePlace(pc: TxnPc, pc': TxnPc, i: nat, n: nat) {
    && (In(i, PendingRange(pc, n)) ==> In(i, PendingRange(pc', n)))
    && (In(i, LockRange(pc, n)) ==> In(i, LockRange(pc', n)))
    && (In(i, HeldRange(pc, n)) ==> In(i, HeldRange(pc', n)))
  }

  lemma {:induction false} SameIndex(a: seq<Group>, b: seq<Group>, o: Oid)
    requires SameOids(a, b)
    ensures IndexOf(a, o) == IndexOf(b, o)
  {
    if a != [] && a[0].oid != o {
      assert forall i | 0 <= i < |a[1..]| :: a[1..][i].oid == a[i + 1].oid && b[1..][i].oid == b[i + 1].oid;
      SameIndex(a[1..], b[1..], o);
    }
  }

  lemma ObjectsBeside(s: State, s': State, t: TxnId, touched: set<Oid>, o: Oid)
    requires t in s.txns && TxnStep(s, s', t, touched) && o in s.objs && o !in touched
    requires ObjectOk(s, o)
    ensures ObjectOk(s', o)
  {
    var groups := s.txns[t].groups;
    SameIndex(groups, s'.txns[t].groups, o);
    var i := IndexOf(groups, o);
    assert i < |groups| ==> SamePlace(s.txns[t].pc, s'.txns[t].pc, i, |groups|);
  }

  lemma TasksBeside(s: State, s': State, t: TxnId, touched: set<Oid>, k: TaskId)
    requires t in s.txns && TxnStep(s, s', t, touched) && k in s.tasks
    requires TaskOk(s, k)
    ensures TaskOk(s', k)
  {
  }

  lemma TxnsBeside(s: State, s': State, t: TxnId, touched: set<Oid>, t': TxnId)
    requires t in s.txns && TxnStep(s, s', t, touched) && t' in s.txns && t' != t
    requires TxnOk(s, t')
    ensures TxnOk(s', t')
  {
  }

  lemma TxnStepKeeps(s: State, s': State, t: TxnId, touched: set<Oid>)
    requires LockInv(s) && t in s.txns && TxnStep(s, s', t, touched)
    requires forall o | o in touched && o in s.objs :: ObjectOk(s', o)
    requires TxnOk(s', t) && ManagerOk(s')
    ensures LockInv(s')
  {
    hide ObjectOk, TaskOk, TxnOk;
    forall o | o in s'.objs ensures ObjectOk(s', o) {
      if o !in touched { ObjectsBeside(s, s', t, touched, o); }
    }
    forall k | k in s'.tasks ensures TaskOk(s', k) {
      TasksBeside(s, s', t, touched, k);
    }
    forall t' | t' in s'.txns ensures TxnOk(s', t') {
      if t' != t { TxnsBeside(s, s', t, touched, t'); }
    }
  }

  /** The object the cursor of `t` points at, if any. */
  function Cursor(txn: Txn): set<Oid> {
    if (txn.pc.Checking? || txn.pc.Marking? || txn.pc.MarkingLock? || txn.pc.Locking? || txn.pc.Applying?
        || txn.pc.Committing? || txn.pc.Releasing? || txn.pc.Clearing?) && txn.pc.i < |txn.groups|
    then {txn.groups[txn.pc.i].oid} else {}
  }

  ghost predicate TxnLocal(s: State, t: TxnId) {
    && t in s.txns && TxnOk(s, t) && ManagerOk(s)
    && forall o | o in Cursor(s.txns[t]) :: o in s.objs && ObjectOk(s, o)
  }

  ghost predicate TxnLocalAfter(s: State, s': State, t: TxnId) {
    && t in s.txns && TxnStep(s, s', t, Cursor(s.txns[t]))
    && TxnOk(s', t) && ManagerOk(s')
    && forall o | o in Cursor(s.txns[t]) :: o in s'.objs && ObjectOk(s', o)
  }

  /** A transaction that only moved along its loops. */
  lemma Settle(s: State, s': State, t: TxnId)
    requires t in s.txns && TxnOk(s, t) && t in s'.txns
    requires s'.tasks == s.tasks && s'.objs.Keys == s.objs.Keys
    requires var a, b := s.txns[t], s'.txns[t];
             && b.sem == a.sem && b.joined == a.joined && SameOids(a.groups, b.groups)
             && CommitRaised(b.pc) && CommitAcquired(b.pc) && CommitRaised(a.pc) && CommitAcquired(a.pc)
             && CursorFits(b.pc, |b.groups|)
             && (UsesManager(b.pc) ==> s'.manager == t)
             && forall i | 0 <= i < |b.groups| :: b.groups[i].oid in s'.objs
                  && GroupOk(s'.objs[b.groups[i].oid], t, b.pc, i, |b.groups|)
    requires t in s'.cache <==> t in s.cache
    ensures TxnOk(s', t)
  {
    hide GroupOk;
  }

  lemma RaiseTxnCommitLocal(s: State, t: TxnId)
    requires CanRaiseTxnCommit(s, t) && TxnLocal(s, t)
    ensures TxnLocalAfter(s, DoRaiseTxnCommit(s, t), t)
  {
    hide Try;
    TryCommits(s.txns[t].sem);
  }

  lemma AcquireTxnLocal(s: State, t: TxnId)
    requires CanAcquireTxn(s, t) && TxnLocal(s, t)
    ensures TxnLocalAfter(s, DoAcquireTxn(s, t), t)
  {
    hide Try;
    TryCommits(s.txns[t].sem);
  }

  lemma TakeManagerSteps(s: State, t: TxnId)
    requires CanTakeManager(s, t) && TxnLocal(s, t)
    ensures TxnStep(s, DoTakeManager(s, t), t, Cursor(s.txns[t]))
  {
    hide ObjectOk, GroupOk;
  }

  lemma TakeManagerHere(s: State, t: TxnId)
    requires CanTakeManager(s, t) && TxnLocal(s, t)
    ensures TxnOk(DoTakeManager(s, t), t) && ManagerOk(DoTakeManager(s, t)) && Cursor(s.txns[t]) == {}
  {
    hide ObjectOk;
  }

  lemma TakeManagerLocal(s: State, t: TxnId)
    requires CanTakeManager(s, t) && TxnLocal(s, t)
    ensures TxnLocalAfter(s, DoTakeManager(s, t), t)
  {
    hide ObjectOk, TxnOk, TxnStep, ManagerOk;
    TakeManagerSteps(s, t);
    TakeManagerHere(s, t);
  }

  /** Group `i` is in order where `t` has got to, and keeps its place unless `t` was at it. */
  predicate GroupMoves(s: State, s': State, t: TxnId, i: nat)
    requires t in s.txns && t in s'.txns && i < |s.txns[t].groups|
  {
    var txn, o := s.txns[t], s.txns[t].groups[i].oid;
    && o in s'.objs
    && GroupOk(s'.objs[o], t, s'.txns[t].pc, i, |txn.groups|)
    && (o !in Cursor(txn) ==> SamePlace(txn.pc, s'.txns[t].pc, i, |txn.groups|))
  }

  predicate GroupsMove(s: State, s': State, t: TxnId)
    requires t in s.txns
  {
    && t in s'.txns && SameOids(s.txns[t].groups, s'.txns[t].groups)
    && forall i {:trigger s.txns[t].groups[i]} | 0 <= i < |s.txns[t].groups| :: GroupMoves(s, s', t, i)
  }

  lemma GroupWas(s: State, t: TxnId, i: nat)
    requires t in s.txns && TxnOk(s, t) && i < |s.txns[t].groups|
    ensures var txn := s.txns[t];
            txn.groups[i].oid in s.objs && GroupOk(s.objs[txn.groups[i].oid], t, txn.pc, i, |txn.groups|)
    ensures DistinctGroups(s.txns[t].groups) && t != 0
  {
  }

  lemma HeldByTxn(s: State, o: Oid)
    requires o in s.objs && ObjectOk(s, o) && s.objs[o].holder.TxnHolder?
    ensures s.objs[o].readers == {} && s.objs[o].committer == None
  {
  }

  /** An object let go by `t`, which goes on to clear its id. */
  lemma LetGo(s: State, s': State, t: TxnId, o: Oid)
    requires o in s.objs && o in s'.objs && t in s'.txns && t != 0
    requires s.objs[o].readers == {} && s.objs[o].committer == None && s.objs[o].pending == t
    requires s'.objs[o] == s.objs[o].(sem := RwcSem.Free, holder := Nobody, locker := 0)
    requires Has(s'.txns[t].groups, o, PendingRange(s'.txns[t].pc, |s'.txns[t].groups|))
    ensures ObjectOk(s', o)
  {
  }

  lemma CheckObject(s: State, t: TxnId)
    requires CanCheck(s, t) && TxnLocal(s, t)
    ensures var s' := DoCheck(s, t);
            forall o | o in Cursor(s.txns[t]) :: o in s'.objs && ObjectOk(s', o) && Fair(s, s.objs[o], s'.objs[o], t)
  {
    var s', txn := DoCheck(s, t), s.txns[t];
    if Cursor(txn) != {} {
      var o := txn.groups[txn.pc.i].oid;
      IndexUnique(txn.groups, txn.pc.i);
      SameIndex(txn.groups, s'.txns[t].groups, o);
      assert GroupOk(s.objs[o], t, txn.pc, txn.pc.i, |txn.groups|);
    }
  }

  lemma CheckGroups(s: State, t: TxnId)
    requires CanCheck(s, t) && TxnLocal(s, t)
    ensures GroupsMove(s, DoCheck(s, t), t)
  {
    hide ObjectOk;
    var s' := DoCheck(s, t);
    forall i | 0 <= i < |s.txns[t].groups| ensures GroupMoves(s, s', t, i) { GroupWas(s, t, i); }
  }

  lemma CheckSteps(s: State, t: TxnId)
    requires CanCheck(s, t) && TxnLocal(s, t)
    ensures TxnStep(s, DoCheck(s, t), t, Cursor(s.txns[t])) && ManagerOk(DoCheck(s, t))
  {
    hide GroupOk, ObjectOk, Fair;
    CheckObject(s, t);
    CheckGroups(s, t);
  }

  lemma CheckLocal(s: State, t: TxnId)
    requires CanCheck(s, t) && TxnLocal(s, t)
    ensures TxnLocalAfter(s, DoCheck(s, t), t)
  {
    hide GroupOk, ObjectOk, Fair, TxnStep;
    CheckObject(s, t);
    CheckGroups(s, t);
    CheckSteps(s, t);
    Settle(s, DoCheck(s, t), t);
  }

  lemma MarkObject(s: State, t: TxnId)
    requires CanMark(s, t) && TxnLocal(s, t)
    ensures var s' := DoMark(s, t);
            forall o | o in Cursor(s.txns[t]) :: o in s'.objs && ObjectOk(s', o) && Fair(s, s.objs[o], s'.objs[o], t)
  {
    var s', txn := DoMark(s, t), s.txns[t];
    if Cursor(txn) != {} {
      var o := txn.groups[txn.pc.i].oid;
      IndexUnique(txn.groups, txn.pc.i);
      SameIndex(txn.groups, s'.txns[t].groups, o);
      assert GroupOk(s.objs[o], t, txn.pc, txn.pc.i, |txn.groups|);
    }
  }

  lemma MarkGroups(s: State, t: TxnId)
    requires CanMark(s, t) && TxnLocal(s, t)
    ensures GroupsMove(s, DoMark(s, t), t)
  {
    hide ObjectOk;
    var s' := DoMark(s, t);
    forall i | 0 <= i < |s.txns[t].groups| ensures GroupMoves(s, s', t, i) { GroupWas(s, t, i); }
  }

  lemma MarkSteps(s: State, t: TxnId)
    requires CanMark(s, t) && TxnLocal(s, t)
    ensures TxnStep(s, DoMark(s, t), t, Cursor(s.txns[t])) && ManagerOk(DoMark(s, t))
  {
    hide GroupOk, ObjectOk, Fair;
    MarkObject(s, t);
    MarkGroups(s, t);
  }

  lemma MarkLocal(s: State, t: TxnId)
    requires CanMark(s, t) && TxnLocal(s, t)
    ensures TxnLocalAfter(s, DoMark(s, t), t)
  {
    hide GroupOk, ObjectOk, Fair, TxnStep;
    MarkObject(s, t);
    MarkGroups(s, t);
    MarkSteps(s, t);
    Settle(s, DoMark(s, t), t);
  }

  /** Only the number of `o` changed, and `t` moved within the same ranges. */
  lemma NumberOnly(s: State, s': State, t: TxnId, o: Oid)
    requires t in s.txns && t in s'.txns && o in s.objs && o in s'.objs && ObjectOk(s, o)
    requires s'.tasks == s.tasks && s'.txns.Keys == s.txns.Keys
    requires forall t' | t' in s.txns && t' != t :: s'.txns[t'] == s.txns[t']
    requires s'.objs[o] == s.objs[o].(num := s'.objs[o].num)
    requires SameOids(s.txns[t].groups, s'.txns[t].groups)
    requires SamePlace(s.txns[t].pc, s'.txns[t].pc, IndexOf(s.txns[t].groups, o), |s.txns[t].groups|)
    ensures ObjectOk(s', o) && Fair(s, s.objs[o], s'.objs[o], t)
  {
    SameIndex(s.txns[t].groups, s'.txns[t].groups, o);
  }

  lemma ApplyAtomPlaces(s: State, t: TxnId)
    requires CanApplyAtom(s, t) && s.txns[t].pc.i < |s.txns[t].groups|
    ensures var txn, txn' := s.txns[t], DoApplyAtom(s, t).txns[t];
            && SameOids(txn.groups, txn'.groups)
            && SamePlace(txn.pc, txn'.pc, IndexOf(txn.groups, txn.groups[txn.pc.i].oid), |txn.groups|)
  {
  }

  lemma ApplyAtomObject(s: State, t: TxnId)
    requires CanApplyAtom(s, t) && TxnLocal(s, t)
    ensures var s' := DoApplyAtom(s, t);
            forall o | o in Cursor(s.txns[t]) :: o in s'.objs && ObjectOk(s', o) && Fair(s, s.objs[o], s'.objs[o], t)
  {
    hide ObjectOk, TxnOk, GroupOk, Fair, SameOids, SamePlace;
    if Cursor(s.txns[t]) != {} {
      ApplyAtomPlaces(s, t);
      NumberOnly(s, DoApplyAtom(s, t), t, s.txns[t].groups[s.txns[t].pc.i].oid);
    }
  }

  lemma ApplyAtomGroups(s: State, t: TxnId)
    requires CanApplyAtom(s, t) && TxnLocal(s, t)
    ensures GroupsMove(s, DoApplyAtom(s, t), t)
  {
    hide ObjectOk;
    var s' := DoApplyAtom(s, t);
    forall i | 0 <= i < |s.txns[t].groups| ensures GroupMoves(s, s', t, i) { GroupWas(s, t, i); }
  }

  lemma ApplyAtomSteps(s: State, t: TxnId)
    requires CanApplyAtom(s, t) && TxnLocal(s, t)
    ensures TxnStep(s, DoApplyAtom(s, t), t, Cursor(s.txns[t])) && ManagerOk(DoApplyAtom(s, t))
  {
    hide GroupOk, ObjectOk, TxnOk, Fair, SameOids, SamePlace;
    ApplyAtomObject(s, t);
    ApplyAtomGroups(s, t);
  }

  lemma ApplyAtomLocal(s: State, t: TxnId)
    requires CanApplyAtom(s, t) && TxnLocal(s, t)
    ensures TxnLocalAfter(s, DoApplyAtom(s, t), t)
  {
    hide GroupOk, ObjectOk, Fair, TxnStep;
    ApplyAtomObject(s, t);
    ApplyAtomGroups(s, t);
    ApplyAtomSteps(s, t);
    Settle(s, DoApplyAtom(s, t), t);
  }

  lemma CommitObjectPlaces(s: State, t: TxnId)
    requires CanCommitObject(s, t) && s.txns[t].pc.i < |s.txns[t].groups|
    ensures var txn, txn' := s.txns[t], DoCommitObject(s, t).txns[t];
            && SameOids(txn.groups, txn'.groups)
            && SamePlace(txn.pc, txn'.pc, IndexOf(txn.groups, txn.groups[txn.pc.i].oid), |txn.groups|)
  {
  }

  lemma CommitObjectObject(s: State, t: TxnId)
    requires CanCommitObject(s, t) && TxnLocal(s, t)
    ensures var s' := DoCommitObject(s, t);
            forall o | o in Cursor(s.txns[t]) :: o in s'.objs && ObjectOk(s', o) && Fair(s, s.objs[o], s'.objs[o], t)
  {
    hide ObjectOk, TxnOk, GroupOk, Fair, SameOids, SamePlace;
    if Cursor(s.txns[t]) != {} {
      CommitObjectPlaces(s, t);
      NumberOnly(s, DoCommitObject(s, t), t, s.txns[t].groups[s.txns[t].pc.i].oid);
    }
  }

  lemma CommitObjectGroups(s: State, t: TxnId)
    requires CanCommitObject(s, t) && TxnLocal(s, t)
    ensures GroupsMove(s, DoCommitObject(s, t), t)
  {
    hide ObjectOk;
    var s' := DoCommitObject(s, t);
    forall i | 0 <= i < |s.txns[t].groups| ensures GroupMoves(s, s', t, i) { GroupWas(s, t, i); }
  }

  lemma CommitObjectSteps(s: State, t: TxnId)
    requires CanCommitObject(s, t) && TxnLocal(s, t)
    ensures TxnStep(s, DoCommitObject(s, t), t, Cursor(s.txns[t])) && ManagerOk(DoCommitObject(s, t))
  {
    hide GroupOk, ObjectOk, Fair;
    CommitObjectObject(s, t);
    CommitObjectGroups(s, t);
  }

  lemma CommitObjectLocal(s: State, t: TxnId)
    requires CanCommitObject(s, t) && TxnLocal(s, t)
    ensures TxnLocalAfter(s, DoCommitObject(s, t), t)
  {
    hide GroupOk, ObjectOk, Fair, TxnStep;
    CommitObjectObject(s, t);
    CommitObjectGroups(s, t);
    CommitObjectSteps(s, t);
    Settle(s, DoCommitObject(s, t), t);
  }

  lemma ClearPendingObject(s: State, t: TxnId)
    requires CanClearPending(s, t) && TxnLocal(s, t)
    ensures var s' := DoClearPending(s, t);
            forall o | o in Cursor(s.txns[t]) :: o in s'.objs && ObjectOk(s', o) && Fair(s, s.objs[o], s'.objs[o], t)
  {
    var s', txn := DoClearPending(s, t), s.txns[t];
    if Cursor(txn) != {} {
      var o := txn.groups[txn.pc.i].oid;
      IndexUnique(txn.groups, txn.pc.i);
      SameIndex(txn.groups, s'.txns[t].groups, o);
      assert GroupOk(s.objs[o], t, txn.pc, txn.pc.i, |txn.groups|);
    }
  }

  lemma ClearPendingGroups(s: State, t: TxnId)
    requires CanClearPending(s, t) && TxnLocal(s, t)
    ensures GroupsMove(s, DoClearPending(s, t), t)
  {
    hide ObjectOk;
    var s' := DoClearPending(s, t);
    forall i | 0 <= i < |s.txns[t].groups| ensures GroupMoves(s, s', t, i) { GroupWas(s, t, i); }
  }

  lemma ClearPendingSteps(s: State, t: TxnId)
    requires CanClearPending(s, t) && TxnLocal(s, t)
    ensures TxnStep(s, DoClearPending(s, t), t, Cursor(s.txns[t])) && ManagerOk(DoClearPending(s, t))
  {
    hide GroupOk, ObjectOk, Fair;
    ClearPendingObject(s, t);
    ClearPendingGroups(s, t);
  }

  lemma ClearPendingLocal(s: State, t: TxnId)
    requires CanClearPending(s, t) && TxnLocal(s, t)
    ensures TxnLocalAfter(s, DoClearPending(s, t), t)
  {
    hide GroupOk, ObjectOk, Fair, TxnStep;
    ClearPendingObject(s, t);
    ClearPendingGroups(s, t);
    ClearPendingSteps(s, t);
    Settle(s, DoClearPending(s, t), t);
  }

  /** Whoever raised LOCK has stored its id first. */
  lemma LockerIsPending(s: State, o: Oid)
    requires o in s.objs && ObjectOk(s, o) && s.objs[o].locker in s.txns && TxnOk(s, s.objs[o].locker)
    ensures s.objs[o].pending == s.objs[o].locker
  {
    var t := s.objs[o].locker;
    var groups := s.txns[t].groups;
    assert GroupOk(s.objs[o], t, s.txns[t].pc, IndexOf(groups, o), |groups|);
  }

  predicate UnmarkedByOthers(s: State, t: TxnId)
    requires t in s.txns
  {
    forall o | o in Cursor(s.txns[t]) && o in s.objs :: s.objs[o].locker == 0 || s.objs[o].locker == t
  }

  lemma MarkLockObject(s: State, t: TxnId)
    requires CanMarkLock(s, t) && TxnLocal(s, t) && UnmarkedByOthers(s, t)
    ensures var s' := DoMarkLock(s, t);
            forall o | o in Cursor(s.txns[t]) :: o in s'.objs && ObjectOk(s', o) && Fair(s, s.objs[o], s'.objs[o], t)
  {
    hide Try, TxnOk;
    var s', txn := DoMarkLock(s, t), s.txns[t];
    if Cursor(txn) != {} {
      var o := txn.groups[txn.pc.i].oid;
      GroupWas(s, t, txn.pc.i);
      IndexUnique(txn.groups, txn.pc.i);
      SameIndex(txn.groups, s'.txns[t].groups, o);
      TryLocks(s.objs[o].sem);
    }
  }

  lemma MarkLockGroups(s: State, t: TxnId)
    requires CanMarkLock(s, t) && TxnLocal(s, t) && UnmarkedByOthers(s, t)
    ensures GroupsMove(s, DoMarkLock(s, t), t)
  {
    hide ObjectOk, Try;
    var s' := DoMarkLock(s, t);
    if s.txns[t].pc.i < |s.txns[t].groups| { TryLocks(s.objs[s.txns[t].groups[s.txns[t].pc.i].oid].sem); }
    forall i | 0 <= i < |s.txns[t].groups| ensures GroupMoves(s, s', t, i) { GroupWas(s, t, i); }
  }

  lemma MarkLockSteps(s: State, t: TxnId)
    requires CanMarkLock(s, t) && TxnLocal(s, t) && UnmarkedByOthers(s, t)
    ensures TxnStep(s, DoMarkLock(s, t), t, Cursor(s.txns[t])) && ManagerOk(DoMarkLock(s, t))
  {
    hide GroupOk, ObjectOk, Fair, Try;
    MarkLockObject(s, t);
    MarkLockGroups(s, t);
  }

  lemma MarkLockLocal(s: State, t: TxnId)
    requires CanMarkLock(s, t) && TxnLocal(s, t) && UnmarkedByOthers(s, t)
    ensures TxnLocalAfter(s, DoMarkLock(s, t), t)
  {
    hide GroupOk, ObjectOk, Fair, TxnStep, Try;
    MarkLockObject(s, t);
    MarkLockGroups(s, t);
    MarkLockSteps(s, t);
    Settle(s, DoMarkLock(s, t), t);
  }

  lemma LockObjectObject(s: State, t: TxnId)
    requires CanLockObject(s, t) && TxnLocal(s, t)
    ensures var s' := DoLockObject(s, t);
            forall o | o in Cursor(s.txns[t]) :: o in s'.objs && ObjectOk(s', o) && Fair(s, s.objs[o], s'.objs[o], t)
  {
    hide Try, TxnOk;
    var s', txn := DoLockObject(s, t), s.txns[t];
    if Cursor(txn) != {} {
      var o := txn.groups[txn.pc.i].oid;
      GroupWas(s, t, txn.pc.i);
      IndexUnique(txn.groups, txn.pc.i);
      SameIndex(txn.groups, s'.txns[t].groups, o);
      TryLocks(s.objs[o].sem);
    }
  }

  lemma LockObjectGroups(s: State, t: TxnId)
    requires CanLockObject(s, t) && TxnLocal(s, t)
    ensures GroupsMove(s, DoLockObject(s, t), t)
  {
    hide ObjectOk, Try;
    var s' := DoLockObject(s, t);
    if s.txns[t].pc.i < |s.txns[t].groups| { TryLocks(s.objs[s.txns[t].groups[s.txns[t].pc.i].oid].sem); }
    forall i | 0 <= i < |s.txns[t].groups| ensures GroupMoves(s, s', t, i) { GroupWas(s, t, i); }
  }

  lemma LockObjectSteps(s: State, t: TxnId)
    requires CanLockObject(s, t) && TxnLocal(s, t)
    ensures TxnStep(s, DoLockObject(s, t), t, Cursor(s.txns[t])) && ManagerOk(DoLockObject(s, t))
  {
    hide GroupOk, ObjectOk, TxnOk, Fair, SameOids, SamePlace, Try;
    LockObjectObject(s, t);
    LockObjectGroups(s, t);
  }

  lemma LockObjectLocal(s: State, t: TxnId)
    requires CanLockObject(s, t) && TxnLocal(s, t)
    ensures TxnLocalAfter(s, DoLockObject(s, t), t)
  {
    hide GroupOk, ObjectOk, Fair, TxnStep, Try;
    LockObjectObject(s, t);
    LockObjectGroups(s, t);
    LockObjectSteps(s, t);
    Settle(s, DoLockObject(s, t), t);
  }

  lemma ReleaseObjectObject(s: State, t: TxnId)
    requires CanReleaseObject(s, t) && TxnLocal(s, t)
    ensures var s' := DoReleaseObject(s, t);
            forall o | o in Cursor(s.txns[t]) :: o in s'.objs && ObjectOk(s', o) && Fair(s, s.objs[o], s'.objs[o], t)
  {
    hide Try, TxnOk, ObjectOk;
    var s', txn := DoReleaseObject(s, t), s.txns[t];
    if Cursor(txn) != {} {
      var o := txn.groups[txn.pc.i].oid;
      GroupWas(s, t, txn.pc.i);
      IndexUnique(txn.groups, txn.pc.i);
      TryLocks(s.objs[o].sem);
      HeldByTxn(s, o);
      LetGo(s, s', t, o);
    }
  }

  lemma ReleaseObjectGroups(s: State, t: TxnId)
    requires CanReleaseObject(s, t) && TxnLocal(s, t)
    ensures GroupsMove(s, DoReleaseObject(s, t), t)
  {
    hide ObjectOk, Try;
    var s' := DoReleaseObject(s, t);
    if s.txns[t].pc.i < |s.txns[t].groups| { TryLocks(s.objs[s.txns[t].groups[s.txns[t].pc.i].oid].sem); }
    forall i | 0 <= i < |s.txns[t].groups| ensures GroupMoves(s, s', t, i) { GroupWas(s, t, i); }
  }

  lemma ReleaseObjectSteps(s: State, t: TxnId)
    requires CanReleaseObject(s, t) && TxnLocal(s, t)
    ensures TxnStep(s, DoReleaseObject(s, t), t, Cursor(s.txns[t])) && ManagerOk(DoReleaseObject(s, t))
  {
    hide GroupOk, ObjectOk, Fair, Try;
    ReleaseObjectObject(s, t);
    ReleaseObjectGroups(s, t);
  }

  lemma ReleaseObjectLocal(s: State, t: TxnId)
    requires CanReleaseObject(s, t) && TxnLocal(s, t)
    ensures TxnLocalAfter(s, DoReleaseObject(s, t), t)
  {
    hide GroupOk, ObjectOk, Fair, TxnStep, Try;
    ReleaseObjectObject(s, t);
    ReleaseObjectGroups(s, t);
    ReleaseObjectSteps(s, t);
    Settle(s, DoReleaseObject(s, t), t);
  }

  lemma DropManagerGroups(s: State, t: TxnId)
    requires CanDropManager(s, t) && TxnLocal(s, t)
    ensures GroupsMove(s, DoDropManager(s, t), t)
  {
    hide ObjectOk;
    var s' := DoDropManager(s, t);
    forall i | 0 <= i < |s.txns[t].groups| ensures GroupMoves(s, s', t, i) { GroupWas(s, t, i); }
  }

  lemma DropManagerLocal(s: State, t: TxnId)
    requires CanDropManager(s, t) && TxnLocal(s, t)
    ensures TxnLocalAfter(s, DoDropManager(s, t), t)
  {
    hide GroupOk, ObjectOk;
    var s' := DoDropManager(s, t);
    DropManagerGroups(s, t);
    Settle(s, s', t);
  }

  lemma DecideGroups(s: State, t: TxnId)
    requires CanDecide(s, t) && TxnLocal(s, t)
    ensures GroupsMove(s, DoDecide(s, t), t)
  {
    hide ObjectOk;
    var s' := DoDecide(s, t);
    forall i | 0 <= i < |s.txns[t].groups| ensures GroupMoves(s, s', t, i) { GroupWas(s, t, i); }
  }

  lemma DecideLocal(s: State, t: TxnId)
    requires CanDecide(s, t) && TxnLocal(s, t)
    ensures TxnLocalAfter(s, DoDecide(s, t), t)
  {
    hide GroupOk, ObjectOk;
    var s' := DoDecide(s, t);
    DecideGroups(s, t);
    Settle(s, s', t);
  }

  lemma CloseTxnLocal(s: State, t: TxnId)
    requires CanCloseTxn(s, t) && TxnLocal(s, t)
    ensures TxnLocalAfter(s, DoCloseTxn(s, t), t)
  {
    hide Try;
    TryCommits(s.txns[t].sem);
  }

  // ------------------------------------------------------- tasks and transactions appear

  lemma IssueKeeps(s: State, k: TaskId, t: TxnId, o: Oid, kind: Kind)
    requires LockInv(s) && CanIssue(s, k, t, o)
    ensures LockInv(DoIssue(s, k, t, o, kind))
  {
    hide ObjectOk, TaskOk, TxnOk;
    var s' := DoIssue(s, k, t, o, kind);
    forall o' | o' in s'.objs ensures ObjectOk(s', o') { NewTaskObject(s, s', k, o'); }
    forall k' | k' in s'.tasks ensures TaskOk(s', k') { NewTaskTask(s, s', k, k'); }
    forall t' | t' in s'.txns ensures TxnOk(s', t') { NewTaskTxn(s, s', k, t'); }
  }

  predicate AddsTask(s: State, s': State, k: TaskId) {
    && k !in s.tasks && k in s'.tasks && s' == s.(tasks := s.tasks[k := s'.tasks[k]])
    && s'.tasks[k].oid in s.objs
    && (s'.tasks[k].pc == Issued || (s'.tasks[k].pc == Ready && s'.tasks[k].txn == 0))
  }

  lemma NewTaskObject(s: State, s': State, k: TaskId, o: Oid)
    requires AddsTask(s, s', k) && o in s.objs && ObjectOk(s, o)
    ensures ObjectOk(s', o)
  {
  }

  lemma NewTaskTask(s: State, s': State, k: TaskId, k': TaskId)
    requires AddsTask(s, s', k) && k' in s'.tasks && (k' != k ==> TaskOk(s, k'))
    ensures TaskOk(s', k')
  {
  }

  lemma NewTaskTxn(s: State, s': State, k: TaskId, t: TxnId)
    requires AddsTask(s, s', k) && t in s.txns && TxnOk(s, t)
    ensures TxnOk(s', t)
  {
  }

  lemma CreateKeeps(s: State, t: TxnId)
    requires LockInv(s) && CanCreate(s, t)
    ensures LockInv(DoCreate(s, t))
  {
    hide ObjectOk, TaskOk, TxnOk;
    var s' := DoCreate(s, t);
    forall o | o in s'.objs ensures ObjectOk(s', o) { NewTxnObject(s, t, o); }
    forall k | k in s'.tasks ensures TaskOk(s', k) { NewTxnTask(s, t, k); }
    forall t' | t' in s'.txns ensures TxnOk(s', t') { NewTxnTxn(s, t, t'); }
  }

  lemma NewTxnObject(s: State, t: TxnId, o: Oid)
    requires CanCreate(s, t) && o in s.objs && ObjectOk(s, o)
    ensures ObjectOk(DoCreate(s, t), o)
  {
  }

  lemma NewTxnTask(s: State, t: TxnId, k: TaskId)
    requires CanCreate(s, t) && k in s.tasks && TaskOk(s, k)
    ensures TaskOk(DoCreate(s, t), k)
  {
  }

  lemma NewTxnTxn(s: State, t: TxnId, t': TxnId)
    requires CanCreate(s, t) && (t' != t ==> t' in s.txns && TxnOk(s, t'))
    ensures TxnOk(DoCreate(s, t), t')
  {
  }

  lemma SubmitLocal(s: State, t: TxnId, commit: bool)
    requires CanSubmit(s, t) && TxnLocal(s, t)
    ensures TxnLocalAfter(s, DoSubmit(s, t, commit), t)
  {
    hide ObjectOk, TxnStep, TxnOk;
    SubmitSteps(s, t, commit);
    SubmitHere(s, t, commit);
  }

  lemma SubmitSteps(s: State, t: TxnId, commit: bool)
    requires CanSubmit(s, t) && TxnLocal(s, t)
    ensures TxnStep(s, DoSubmit(s, t, commit), t, Cursor(s.txns[t])) && Cursor(s.txns[t]) == {}
  {
    hide ObjectOk, GroupOk;
  }

  lemma SubmitHere(s: State, t: TxnId, commit: bool)
    requires CanSubmit(s, t) && TxnLocal(s, t)
    ensures TxnOk(DoSubmit(s, t, commit), t) && ManagerOk(DoSubmit(s, t, commit))
  {
    hide ObjectOk;
  }

  // ------------------------------------------------------------------ every step

  lemma TaskIsLocal(s: State, k: TaskId)
    requires LockInv(s) && k in s.tasks && s.tasks[k].oid in s.objs
    ensures LocalOk(s, k)
  {
    hide ObjectOk, TaskOk, TxnOk;
  }

  lemma TxnIsLocal(s: State, t: TxnId)
    requires LockInv(s) && t in s.txns
    ensures TxnLocal(s, t)
  {
    hide ObjectOk, TaskOk;
    assert TxnOk(s, t);
  }

  lemma TxnLocalKeeps(s: State, s': State, t: TxnId)
    requires LockInv(s) && TxnLocalAfter(s, s', t)
    ensures LockInv(s')
  {
    hide ObjectOk, TxnOk, TxnStep, LockInv, ManagerOk;
    TxnStepKeeps(s, s', t, Cursor(s.txns[t]));
  }

  lemma KeepsByTask(s: State, step: Step, s': State)
    requires LockInv(s) && NextTask(s, step, s') && InScope(s, step)
    ensures LockInv(s')
  {
    hide LockInv, LocalOk, TaskStep, MoveTask, SetObject, Try, Execute, AfterWriteRelease;
    match step
    case Issue(k, t, o, kind) => IssueKeeps(s, k, t, o, kind);
    case LookUp(k) => TaskIsLocal(s, k); LookUpLocal(s, k); TaskStepKeeps(s, s', k);
    case Join(k) => TaskIsLocal(s, k); JoinLocal(s, k); TaskStepKeeps(s, s', k);
    case Gate(k) => TaskIsLocal(s, k); GateLocal(s, k); TaskStepKeeps(s, s', k);
    case GrabRead(k) => TaskIsLocal(s, k); GrabReadLocal(s, k); TaskStepKeeps(s, s', k);
    case GrabWrite(k) => TaskIsLocal(s, k); GrabWriteLocal(s, k); TaskStepKeeps(s, s', k);
    case Read(k) => TaskIsLocal(s, k); ReadLocal(s, k); TaskStepKeeps(s, s', k);
    case ReleaseRead(k) => TaskIsLocal(s, k); ReleaseReadLocal(s, k); TaskStepKeeps(s, s', k);
    case Write(k) => TaskIsLocal(s, k); WriteLocal(s, k); TaskStepKeeps(s, s', k);
    case RaiseCommit(k) => TaskIsLocal(s, k); RaiseCommitLocal(s, k); TaskStepKeeps(s, s', k);
    case Switch(k) => TaskIsLocal(s, k); SwitchLocal(s, k); TaskStepKeeps(s, s', k);
    case ReleaseFailed(k) => TaskIsLocal(s, k); ReleaseFailedLocal(s, k); TaskStepKeeps(s, s', k);
    case ReleaseUnswitched(k) => TaskIsLocal(s, k); ReleaseUnswitchedLocal(s, k); TaskStepKeeps(s, s', k);
    case GrabCommit(k) => TaskIsLocal(s, k); GrabCommitLocal(s, k); TaskStepKeeps(s, s', k);
    case Commit(k) => TaskIsLocal(s, k); CommitLocal(s, k); TaskStepKeeps(s, s', k);
    case ReleaseCommit(k) => TaskIsLocal(s, k); ReleaseCommitLocal(s, k); TaskStepKeeps(s, s', k);
    case Leave(k) => TaskIsLocal(s, k); LeaveLocal(s, k); TaskStepKeeps(s, s', k);
  }

  lemma KeepsByTxn(s: State, step: Step, s': State)
    requires LockInv(s) && NextTxn(s, step, s')
    ensures LockInv(s')
  {
    hide LockInv, TxnLocal, TxnLocalAfter, MoveTxn, SetObject, Try;
    match step
    case Create(t) => CreateKeeps(s, t);
    case Submit(t, commit) => TxnIsLocal(s, t); SubmitLocal(s, t, commit); TxnLocalKeeps(s, s', t);
    case RaiseTxnCommit(t) => TxnIsLocal(s, t); RaiseTxnCommitLocal(s, t); TxnLocalKeeps(s, s', t);
    case AcquireTxn(t) => TxnIsLocal(s, t); AcquireTxnLocal(s, t); TxnLocalKeeps(s, s', t);
    case TakeManager(t) => TxnIsLocal(s, t); TakeManagerLocal(s, t); TxnLocalKeeps(s, s', t);
    case Check(t) => TxnIsLocal(s, t); CheckLocal(s, t); TxnLocalKeeps(s, s', t);
    case Mark(t) => TxnIsLocal(s, t); MarkLocal(s, t); TxnLocalKeeps(s, s', t);
    case MarkLock(t) => CursorUnmarked(s, t); TxnIsLocal(s, t); MarkLockLocal(s, t); TxnLocalKeeps(s, s', t);
    case DropManager(t) => TxnIsLocal(s, t); DropManagerLocal(s, t); TxnLocalKeeps(s, s', t);
    case LockObject(t) => TxnIsLocal(s, t); LockObjectLocal(s, t); TxnLocalKeeps(s, s', t);
    case ApplyAtom(t) => TxnIsLocal(s, t); ApplyAtomLocal(s, t); TxnLocalKeeps(s, s', t);
    case CommitObject(t) => TxnIsLocal(s, t); CommitObjectLocal(s, t); TxnLocalKeeps(s, s', t);
    case Decide(t) => TxnIsLocal(s, t); DecideLocal(s, t); TxnLocalKeeps(s, s', t);
    case ReleaseObject(t) => TxnIsLocal(s, t); ReleaseObjectLocal(s, t); TxnLocalKeeps(s, s', t);
    case ClearPending(t) => TxnIsLocal(s, t); ClearPendingLocal(s, t); TxnLocalKeeps(s, s', t);
    case CloseTxn(t) => TxnIsLocal(s, t); CloseTxnLocal(s, t); TxnLocalKeeps(s, s', t);
  }

  lemma CursorUnmarked(s: State, t: TxnId)
    requires LockInv(s) && CanMarkLock(s, t)
    ensures UnmarkedByOthers(s, t)
  {
    hide TaskOk;
    var pc, groups := s.txns[t].pc, s.txns[t].groups;
    var o := groups[pc.i].oid;
    assert TxnOk(s, t);
    assert GroupOk(s.objs[o], t, pc, pc.i, |groups|);
    hide TxnOk;
    assert ObjectOk(s, o);
    if s.objs[o].locker != 0 {
      assert s.objs[o].locker in s.txns;
      hide ObjectOk;
      LockerIsPending(s, o);
    }
  }

  /** Every step of a run in scope keeps the locking invariant. */
  lemma LockPreserved(s: State, step: Step, s': State)
    requires LockInv(s) && Next(s, step, s') && InScope(s, step)
    ensures LockInv(s')
  {
    hide LockInv;
    if NextTask(s, step, s') { KeepsByTask(s, step, s'); } else { KeepsByTxn(s, step, s'); }
  }
}
