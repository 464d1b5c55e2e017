/** The scope of the run theorems is exact: the invariant survives a step if and only if the step
    is in scope. What becomes of a number that is written through a finished transaction. */
module TxnScope {
  import opened Common
  import opened Calls
  import opened TxnMachine
  import opened TxnFrames
  import opened TxnLocking
  import opened TxnOwnership
  import opened TxnOutcome
  import opened TxnValues
  import opened TxnTheorems
  import RwcSem

  // ------------------------------------------------------------- steps out of scope

  lemma ReadersFull(s: State, o: Oid, k: TaskId)
    requires LockInv(s) && o in s.objs && k in s.tasks && s.tasks[k].pc == PastGate
    ensures s.objs[o].sem.readers == |s.objs[o].readers| && k !in s.objs[o].readers
  {
    hide TaskOk, TxnOk;
    assert ObjectOk(s, o);
  }

  /** An operation too many on an object is one the reader field does not count. */
  lemma GrabReadBreaks(s: State, k: TaskId)
    requires LockInv(s) && CanGrabRead(s, k) && !RoomToRead(s.objs[s.tasks[k].oid].sem)
    ensures !LockInv(DoGrabRead(s, k))
  {
    hide LockInv, Try;
    var o, s' := s.tasks[k].oid, DoGrabRead(s, k);
    ReadersFull(s, o, k);
    ReaderBound(s', o);
    assert s'.objs[o].readers == s.objs[o].readers + {k};
  }

  lemma ReaderBound(s: State, o: Oid)
    requires o in s.objs
    ensures LockInv(s) ==> s.objs[o].sem.readers == |s.objs[o].readers| <= RwcSem.MAX_READERS
  {
    hide TaskOk, TxnOk;
    assert LockInv(s) ==> ObjectOk(s, o);
  }

  lemma JoinedBound(s: State, t: TxnId)
    requires t in s.txns
    ensures LockInv(s) ==> s.txns[t].sem.readers == |s.txns[t].joined| <= RwcSem.MAX_READERS
  {
    hide TaskOk, ObjectOk;
    assert LockInv(s) ==> TxnOk(s, t);
  }

  lemma JoinBreaks(s: State, k: TaskId)
    requires LockInv(s) && CanJoin(s, k) && !RoomToRead(s.txns[s.tasks[k].txn].sem)
    ensures !LockInv(DoJoin(s, k))
  {
    hide LockInv, Try;
    var t, s' := s.tasks[k].txn, DoJoin(s, k);
    NotJoinedYet(s, k);
    JoinedBound(s, t);
    JoinedBound(s', t);
    assert s'.txns[t].joined == s.txns[t].joined + {k};
  }

  /** A write release clears readers that are there. */
  lemma WriteReleaseBreaks(s: State, k: TaskId, pc: Pc)
    requires LockInv(s) && k in s.tasks && s.tasks[k].oid in s.objs && s.objs[s.tasks[k].oid].readers != {}
    ensures !LockInv(AfterWriteRelease(s, k, pc))
  {
    hide LockInv, Try;
    var o, s' := s.tasks[k].oid, AfterWriteRelease(s, k, pc);
    TryWrites(s.objs[o].sem);
    ReaderBound(s', o);
    assert s'.objs[o].readers == s.objs[o].readers;
  }

  /** A value of more than 64 bits is none the number can hold. */
  lemma WideValueBreaks(s: State, k: TaskId)
    requires CanWrite(s, k) && !LateWrite(s, k) && !InScope(s, Write(k))
    ensures !ValInv(DoWrite(s, k))
  {
    hide Execute, Faithful, AddAtom, InRange;
    var o, s' := s.tasks[k].oid, DoWrite(s, k);
    assert !InRange(s'.objs[o].num.write);
    assert ValInv(s') ==> NumberOk(s', o);
  }

  /** The write of a late joiner that takes effect leaves the number with an owner that is never
      going to publish it. */
  lemma LateWriteTaken(s: State, k: TaskId)
    requires CanWrite(s, k) && LateWrite(s, k) && DoWrite(s, k).tasks[k].pc == Written
    ensures var t, s' := s.tasks[k].txn, DoWrite(s, k);
            && s'.objs[s.tasks[k].oid].num.owner == t && t in s'.txns && s'.txns[t].pc.Finished?
    ensures !OwnInv(DoWrite(s, k))
  {
    hide OwnInv, Execute, AddAtom;
    FinishedOwns(DoWrite(s, k), s.tasks[k].txn, s.tasks[k].oid);
  }

  lemma FinishedOwns(s: State, t: TxnId, o: Oid)
    requires t in s.txns && s.txns[t].pc.Finished? && o in s.objs && s.objs[o].num.owner == t
    ensures !OwnInv(s)
  {
    hide OwnInv;
    if OwnInv(s) { FinishedOwnsNothing(s, t, o); }
  }

  /** One that is refused takes its state back from a transaction that was decided. */
  lemma LateWriteRefused(s: State, k: TaskId)
    requires CanWrite(s, k) && LateWrite(s, k) && DoWrite(s, k).tasks[k].pc != Written
    ensures var t, s' := s.tasks[k].txn, DoWrite(s, k);
            t in s'.txns && s'.txns[t].pc.Finished? && s'.txns[t].state == DontCommit
    ensures !OutInv(DoWrite(s, k))
  {
    hide OutInv, Execute, AddAtom;
    RolledBackAgain(DoWrite(s, k), s.tasks[k].txn);
  }

  lemma RolledBackAgain(s: State, t: TxnId)
    requires t in s.txns && s.txns[t].pc.Finished? && s.txns[t].state == DontCommit
    ensures !OutInv(s)
  {
    assert OutInv(s) ==> OutcomeOk(t, s.txns[t], s.history);
  }

  /** A late joiner may read, and may leave; the invariant survives every write but that of a late
      joiner, whatever becomes of it. */
  lemma LateWriteExact(s: State, k: TaskId)
    requires Inv(s) && CanWrite(s, k)
    requires LateWrite(s, k) || InScope(s, Write(k))
    ensures Inv(DoWrite(s, k)) <==> !LateWrite(s, k)
  {
    hide LockInv, OwnInv, OutInv, ValInv, SeenInOrder, InScope;
    if LateWrite(s, k) {
      if DoWrite(s, k).tasks[k].pc == Written { LateWriteTaken(s, k); } else { LateWriteRefused(s, k); }
    } else {
      WriteIsStep(s, k);
      Preserved(s, Write(k), DoWrite(s, k));
    }
  }

  lemma WriteIsStep(s: State, k: TaskId)
    requires CanWrite(s, k)
    ensures Next(s, Write(k), DoWrite(s, k))
  {
    hide DoWrite;
  }

  lemma OutOfScopeBreaks(s: State, step: Step, s': State)
    requires Inv(s) && Next(s, step, s') && !InScope(s, step)
    ensures !Inv(s')
  {
    hide LockInv, OwnInv, OutInv, ValInv, SeenInOrder, DoGrabRead, DoJoin, DoWrite, AfterWriteRelease;
    match step
    case GrabRead(k) => GrabReadBreaks(s, k);
    case Join(k) => JoinBreaks(s, k);
    case ReleaseFailed(k) => WriteReleaseBreaks(s, k, Leaving);
    case ReleaseUnswitched(k) => WriteReleaseBreaks(s, k, CommitWait);
    case Write(k) => if LateWrite(s, k) { LateWriteExact(s, k); } else { WideValueBreaks(s, k); }
    case _ =>
  }

  /** The invariant survives a step if and only if the step is in scope. */
  lemma ScopeExact(s: State, step: Step, s': State)
    requires Inv(s) && Next(s, step, s')
    ensures Inv(s') <==> InScope(s, step)
  {
    hide Inv, Next, InScope;
    if InScope(s, step) { Preserved(s, step, s'); } else { OutOfScopeBreaks(s, step, s'); }
  }

  /** Steps of the protocol, in scope or not. */
  ghost predicate AnyRun(states: seq<State>, steps: seq<Step>) {
    && |states| == |steps| + 1 && Initial(states[0])
    && (forall i | 0 <= i < |steps| :: Next(states[i], steps[i], states[i + 1]))
  }

  /** A run of the protocol keeps the invariant in all its states exactly when all its steps are in
      scope. */
  lemma RunExact(states: seq<State>, steps: seq<Step>)
    requires AnyRun(states, steps)
    ensures (forall i | 0 <= i < |states| :: Inv(states[i]))
            <==> (forall i | 0 <= i < |steps| :: InScope(states[i], steps[i]))
  {
    hide Inv, Next, InScope, Initial;
    if forall i | 0 <= i < |steps| :: InScope(states[i], steps[i]) {
      assert Run(states, steps);
      forall i | 0 <= i < |states| ensures Inv(states[i]) { Reached(states, steps, i); }
    }
    if forall i | 0 <= i < |states| :: Inv(states[i]) {
      forall i | 0 <= i < |steps| ensures InScope(states[i], steps[i]) {
        ScopeExact(states[i], steps[i], states[i + 1]);
      }
    }
  }

  // ------------------------------------------------------ the number of a late write

  /** `o` belongs to a finished transaction, and nobody else is to publish it. */
  predicate Stuck(s: State, t: TxnId, o: Oid) {
    && o in s.objs && s.objs[o].num.owner == t && t != 0
    && t in s.txns && s.txns[t].pc.Finished? && t !in s.cache
    && (forall t' | t' in s.txns && t' != t :: NoAtom(s.txns[t'].groups, o))
  }

  predicate NoAtom(groups: seq<Group>, o: Oid) {
    forall i | 0 <= i < |groups| && groups[i].oid == o :: groups[i].atoms == []
  }

  lemma LateWriteSticks(s: State, k: TaskId)
    requires LockInv(s) && OwnInv(s) && CanWrite(s, k) && LateWrite(s, k) && DoWrite(s, k).tasks[k].pc == Written
    ensures Stuck(DoWrite(s, k), s.tasks[k].txn, s.tasks[k].oid)
  {
    hide LockInv, OwnInv, Execute, AddAtom;
    var t, o := s.tasks[k].txn, s.tasks[k].oid;
    LateWriteTaken(s, k);
    FinishedOwnsNothing(s, t, o);
    FinishedNotCached(s, t);
    NoTxnZero(s);
    assert s.objs[o].num.owner == 0;
    forall t' | t' in s.txns && t' != t ensures NoAtom(s.txns[t'].groups, o) { NotOwnedNoAtom(s, t', o); }
  }

  lemma FinishedNotCached(s: State, t: TxnId)
    requires LockInv(s) && t in s.txns && s.txns[t].pc.Finished?
    ensures t !in s.cache
  {
    hide ObjectOk, TaskOk;
    assert TxnOk(s, t);
  }

  lemma NotOwnedNoAtom(s: State, t: TxnId, o: Oid)
    requires OwnInv(s) && t in s.txns && o in s.objs && s.objs[o].num.owner != t
    ensures NoAtom(s.txns[t].groups, o)
  {
    hide OwnedOk, WriterOk;
    assert GroupsOk(s, t);
    var groups := s.txns[t].groups;
    forall i | 0 <= i < |groups| && groups[i].oid == o ensures groups[i].atoms == [] {
      assert AtomOwned(s, t, groups[i]);
    }
  }

  lemma {:induction false} NoAtomAfterAdd(groups: seq<Group>, o: Oid, other: Oid)
    requires NoAtom(groups, o) && other != o
    ensures NoAtom(AddAtom(groups, other, other), o)
  {
    if groups != [] && groups[0].oid != other {
      assert forall i | 0 < i < |groups| :: groups[1..][i - 1] == groups[i];
      NoAtomAfterAdd(groups[1..], o, other);
    }
  }

  predicate Refused(s: State, k: TaskId)
    requires CanWrite(s, k)
  {
    DoWrite(s, k).tasks[k].pc == WriteFailed
  }

  /** Nobody else writes the number; a write of `t` itself, late again, leaves it where it is. */
  lemma StuckWrite(s: State, t: TxnId, o: Oid, k: TaskId)
    requires Stuck(s, t, o) && CanWrite(s, k)
    ensures Stuck(DoWrite(s, k), t, o)
    ensures s.tasks[k].oid == o && s.tasks[k].txn != t ==> Refused(s, k)
  {
    hide Execute, AddAtom, NoAtom;
    var t' := s.tasks[k].txn;
    if t' != 0 && t' != t && s.tasks[k].oid != o {
      NoAtomAfterAdd(s.txns[t'].groups, o, s.tasks[k].oid);
    }
  }

  lemma StuckApply(s: State, t: TxnId, o: Oid, t': TxnId)
    requires Stuck(s, t, o) && CanApplyAtom(s, t')
    ensures Stuck(DoApplyAtom(s, t'), t, o)
  {
  }

  lemma StuckSubmit(s: State, t: TxnId, o: Oid, t': TxnId, commit: bool)
    requires Stuck(s, t, o) && CanSubmit(s, t')
    ensures Stuck(DoSubmit(s, t', commit), t, o)
  {
    hide NoAtom;
  }

  lemma StuckQuiet(s: State, t: TxnId, o: Oid, s': State)
    requires Stuck(s, t, o) && Quiet(s, s') && t !in s'.cache && t in s'.txns && s'.txns[t].pc == s.txns[t].pc
    ensures Stuck(s', t, o)
  {
  }

  lemma TaskLeavesTxns(s: State, s': State, k: TaskId, t: TxnId)
    requires TaskMoves(s, s', k) && t in s.txns
    ensures t in s'.txns && s'.txns[t].pc == s.txns[t].pc
  {
  }

  lemma TaskLeavesCache(s: State, step: Step, s': State)
    requires NextTask(s, step, s')
    ensures s'.cache == s.cache
  {
    hide Try, Execute, AddAtom, Visible, CommitNumber;
  }

  lemma StuckByTask(s: State, t: TxnId, o: Oid, step: Step, s': State)
    requires Stuck(s, t, o) && NextTask(s, step, s')
    ensures Stuck(s', t, o)
  {
    hide Stuck, TaskMoves, Quiet, DoWrite;
    TaskLeavesCache(s, step, s');
    if step.Write? {
      StuckWrite(s, t, o, step.k);
    } else {
      hide NextTask;
      StuckIsFinished(s, t, o);
      TaskStepMoves(s, step, s');
      TaskMovesQuietly(s, s', step.k);
      TaskLeavesTxns(s, s', step.k, t);
      StuckQuiet(s, t, o, s');
    }
  }

  lemma StuckIsFinished(s: State, t: TxnId, o: Oid)
    requires Stuck(s, t, o)
    ensures t in s.txns && s.txns[t].pc.Finished? && t !in s.cache
  {
  }

  /** A finished transaction takes no step, and does not come back to the cache. */
  lemma FinishedRests(s: State, step: Step, s': State, t: TxnId)
    requires NextTxn(s, step, s') && t in s.txns && s.txns[t].pc.Finished? && t !in s.cache
    ensures step.t != t && t !in s'.cache
  {
    hide Try, CommitNumber, ApplyNumber, RevertNumber;
  }

  lemma StuckByTxn(s: State, t: TxnId, o: Oid, step: Step, s': State)
    requires Stuck(s, t, o) && NextTxn(s, step, s')
    ensures Stuck(s', t, o)
  {
    hide Stuck, TxnMoves, Quiet, DoApplyAtom, DoSubmit, TouchedBy;
    StuckIsFinished(s, t, o);
    FinishedRests(s, step, s', t);
    IsTxnStep(s, step, s');
    if step.Submit? {
      StuckSubmit(s, t, o, step.t, step.commit);
    } else if step.ApplyAtom? {
      StuckApply(s, t, o, step.t);
    } else {
      TxnStepMoves(s, step, s');
      TxnMovesQuietly(s, s', step.t, TouchedBy(s, step.t));
      TxnLeavesOthers(s, s', step.t, TouchedBy(s, step.t), t);
      StuckQuiet(s, t, o, s');
    }
  }

  lemma TxnLeavesOthers(s: State, s': State, t': TxnId, o: Oid, t: TxnId)
    requires TxnMoves(s, s', t', o) && t in s.txns && t != t'
    ensures t in s'.txns && s'.txns[t] == s.txns[t]
  {
  }

  /** From a state in which the number is stuck, no step of anybody ever frees it: it stays owned by
      the finished transaction, and every other write to it is refused. */
  lemma {:induction false} StuckForEver(states: seq<State>, steps: seq<Step>, t: TxnId, o: Oid, n: nat)
    requires |states| == |steps| + 1 && Stuck(states[0], t, o) && n < |states|
    requires forall i | 0 <= i < |steps| :: Next(states[i], steps[i], states[i + 1])
    ensures Stuck(states[n], t, o) && states[n].objs[o].num.owner == t
    ensures forall k | CanWrite(states[n], k) && states[n].tasks[k].oid == o && states[n].tasks[k].txn != t ::
              Refused(states[n], k)
  {
    hide NextTask, NextTxn, NoAtom, Refused;
    if n > 0 {
      var s, step, s' := states[n - 1], steps[n - 1], states[n];
      StuckForEver(states, steps, t, o, n - 1);
      assert Next(s, step, s');
      if NextTask(s, step, s') { StuckByTask(s, t, o, step, s'); } else { StuckByTxn(s, t, o, step, s'); }
    }
    forall k | CanWrite(states[n], k) && states[n].tasks[k].oid == o && states[n].tasks[k].txn != t
      ensures Refused(states[n], k)
    {
      StuckWrite(states[n], t, o, k);
    }
  }

  /** Once a late write has taken effect, the number belongs to the finished transaction in every later
      state of every run, in scope or not, and every write to it by anybody else is refused. */
  lemma LateWriteForEver(states: seq<State>, steps: seq<Step>, k: TaskId, n: nat)
    requires |states| == |steps| + 1 && 0 < n < |states|
    requires forall i | 0 <= i < |steps| :: Next(states[i], steps[i], states[i + 1])
    requires LockInv(states[0]) && OwnInv(states[0]) && CanWrite(states[0], k) && LateWrite(states[0], k)
    requires states[1] == DoWrite(states[0], k) && states[1].tasks[k].pc == Written
    ensures var o, t, s := states[0].tasks[k].oid, states[0].tasks[k].txn, states[n];
            && o in s.objs && s.objs[o].num.owner == t && t in s.txns && s.txns[t].pc.Finished?
            && forall k' | CanWrite(s, k') && s.tasks[k'].oid == o && s.tasks[k'].txn != t :: Refused(s, k')
  {
    hide LockInv, OwnInv, Next, DoWrite, NoAtom, Refused, LateWrite;
    LateWriteSticks(states[0], k);
    StuckForEver(states[1..], steps[1..], states[0].tasks[k].txn, states[0].tasks[k].oid, n - 1);
  }

  /** The same in a run from the start: all steps up to the late write are in scope, and what comes
      after it may be anything. */
  lemma LateWriteInRun(states: seq<State>, steps: seq<Step>, m: nat, n: nat, k: TaskId)
    requires AnyRun(states, steps) && m < n < |states| && steps[m] == Write(k)
    requires forall i | 0 <= i < m :: InScope(states[i], steps[i])
    requires CanWrite(states[m], k) && LateWrite(states[m], k) && k in states[m + 1].tasks
             && states[m + 1].tasks[k].pc == Written
    ensures var o, t, s := states[m].tasks[k].oid, states[m].tasks[k].txn, states[n];
            && o in s.objs && s.objs[o].num.owner == t && t in s.txns && s.txns[t].pc.Finished?
            && forall k' | CanWrite(s, k') && s.tasks[k'].oid == o && s.tasks[k'].txn != t :: Refused(s, k')
  {
    hide Inv, Next, DoWrite, Refused, LateWrite, InScope, Initial;
    assert Run(states[..m + 1], steps[..m]);
    Reached(states[..m + 1], steps[..m], m);
    WriteStepOf(states[m], k, states[m + 1]);
    LayersOf(states[m]);
    LateWriteForEver(states[m..], steps[m..], k, n - m);
  }

  lemma WriteStepOf(s: State, k: TaskId, s': State)
    requires Next(s, Write(k), s') && CanWrite(s, k)
    ensures s' == DoWrite(s, k)
  {
    hide DoWrite;
  }

  lemma LayersOf(s: State)
    requires Inv(s)
    ensures LockInv(s) && OwnInv(s)
  {
    hide LockInv, OwnInv, OutInv, ValInv, SeenInOrder;
  }
}
