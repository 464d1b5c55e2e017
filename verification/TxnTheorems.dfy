/** What holds of every run of the transaction protocol. */
module TxnTheorems {
  import opened Common
  import opened Calls
  import opened TxnMachine
  import opened TxnFrames
  import opened TxnLocking
  import opened TxnOwnership
  import opened TxnOutcome
  import opened TxnValues
  import RwcSem

  /** Reads are noted in the order in which they happen. */
  predicate SeenInOrder(s: State) {
    && (forall i, j | 0 <= i < j < |s.seen| :: s.seen[i].at <= s.seen[j].at)
    && (forall i | 0 <= i < |s.seen| :: s.seen[i].at <= |s.history|)
  }

  ghost predicate Inv(s: State) { LockInv(s) && OwnInv(s) && OutInv(s) && ValInv(s) && SeenInOrder(s) }

  ghost predicate Run(states: seq<State>, steps: seq<Step>) {
    && |states| == |steps| + 1 && Initial(states[0])
    && (forall i | 0 <= i < |steps| :: Next(states[i], steps[i], states[i + 1]) && InScope(states[i], steps[i]))
  }

  // ------------------------------------------------------------- history and readings

  /** What a step adds to the history and to the readings. */
  ghost predicate Extends(s: State, step: Step, s': State) {
    && (s'.history == s.history
        || (step.Commit? && step.k in s.tasks && s.tasks[step.k].txn == 0 && s.tasks[step.k].kind.Writing?
            && var task := s.tasks[step.k];
               s'.history == s.history + [Standalone(Entry(task.oid, task.kind.call, task.reply))])
        || (step.Decide? && step.t in s.txns && s'.history == s.history + [Committed(step.t, s.txns[step.t].log)]))
    && (s'.seen == s.seen
        || (step.Read? && s'.history == s.history
            && exists seen :: s'.seen == s.seen + [seen] && seen.at == |s.history|))
  }

  lemma TaskExtends(s: State, step: Step, s': State)
    requires NextTask(s, step, s') && !step.Write? && !step.Commit? && !step.Read?
    ensures Extends(s, step, s')
  {
    hide TaskMoves;
    TaskStepMoves(s, step, s');
    QuietTaskPc(s, step, s');
    NoNewEvent(s, s', step.k);
  }

  lemma NoNewEvent(s: State, s': State, k: TaskId)
    requires TaskMoves(s, s', k) && !PcOf(s, k, CommitHeld)
    ensures s'.history == s.history
  {
  }

  lemma SpecialExtends(s: State, step: Step, s': State)
    requires NextTask(s, step, s') && (step.Write? || step.Commit? || step.Read?)
    ensures Extends(s, step, s')
  {
    hide Execute, AddAtom, Visible;
  }

  lemma TxnExtends(s: State, step: Step, s': State)
    requires NextTxn(s, step, s')
    ensures Extends(s, step, s')
  {
    hide Try, CommitNumber, ApplyNumber, RevertNumber;
  }

  lemma StepExtends(s: State, step: Step, s': State)
    requires Next(s, step, s')
    ensures Extends(s, step, s')
  {
    hide NextTask, NextTxn, Extends;
    if NextTask(s, step, s') {
      if step.Write? || step.Commit? || step.Read? { SpecialExtends(s, step, s'); }
      else { IsTaskStep(s, step, s'); TaskExtends(s, step, s'); }
    } else {
      TxnExtends(s, step, s');
    }
  }

  lemma OrderKept(s: State, step: Step, s': State)
    requires SeenInOrder(s) && Extends(s, step, s')
    ensures SeenInOrder(s') && s.history <= s'.history && s.seen <= s'.seen
  {
  }

  lemma Preserved(s: State, step: Step, s': State)
    requires Inv(s) && Next(s, step, s') && InScope(s, step)
    ensures Inv(s')
  {
    hide LockInv, OwnInv, OutInv, ValInv, SeenInOrder, Next, InScope, Extends;
    LockPreserved(s, step, s');
    OwnPreserved(s, step, s');
    OutPreserved(s, step, s');
    ValPreserved(s, step, s');
    StepExtends(s, step, s');
    OrderKept(s, step, s');
  }

  lemma InitialInv(s: State)
    requires Initial(s)
    ensures Inv(s)
  {
    InitialLockInv(s);
    InitialOwnInv(s);
    InitialOutInv(s);
    InitialValInv(s);
    hide LockInv, OwnInv, OutInv, ValInv;
  }

  /** Every state of every run in scope satisfies the invariant. */
  lemma {:induction false} Reached(states: seq<State>, steps: seq<Step>, i: nat)
    requires Run(states, steps) && i < |states|
    ensures Inv(states[i])
  {
    hide Inv, Next, InScope, Initial;
    if i == 0 {
      InitialInv(states[0]);
    } else {
      Reached(states, steps, i - 1);
      Preserved(states[i - 1], steps[i - 1], states[i]);
    }
  }

  /** The history and the readings only grow along a run. */
  lemma {:induction false} Grows(states: seq<State>, steps: seq<Step>, i: nat, j: nat)
    requires Run(states, steps) && i <= j < |states|
    ensures states[i].history <= states[j].history && states[i].seen <= states[j].seen
  {
    hide Inv, Next, InScope, Initial, Extends, SeenInOrder;
    if i < j {
      Grows(states, steps, i, j - 1);
      Reached(states, steps, j - 1);
      SeenPart(states[j - 1]);
      StepExtends(states[j - 1], steps[j - 1], states[j]);
      OrderKept(states[j - 1], steps[j - 1], states[j]);
    }
  }

  lemma SeenPart(s: State)
    requires Inv(s)
    ensures SeenInOrder(s)
  {
    hide LockInv, OwnInv, OutInv, ValInv;
  }

  // ------------------------------------------------------------------ serial replay

  /** The committed values are those of a serial execution from zero of the history: standalone
      writes and whole transactions, in completion order, each call succeeding with the reply
      its caller got. Only an object in the middle of its transaction's publication is ahead,
      and then by exactly that transaction. */
  lemma SerialReplay(states: seq<State>, steps: seq<Step>, i: nat, o: Oid)
    requires Run(states, steps) && i < |states| && o in states[i].objs
    ensures var s := states[i];
            && RepeatsSerially(Flat(s.history))
            && (!Publishes(s, o) || s.objs[o].num.owner != 0 ==>
                  s.objs[o].num.read == Get(FinalStore(Flat(s.history)), o))
            && (Publishes(s, o) && s.objs[o].num.owner == 0 ==>
                  var t := s.objs[o].holder.t;
                  s.objs[o].num.read == Get(FinalStore(Flat(s.history + [Committed(t, s.txns[t].log)])), o))
  {
    hide Next, InScope, Initial, Inv;
    Reached(states, steps, i);
    SerialState(states[i]);
    CommittedValue(states[i], o);
  }

  lemma SerialState(s: State)
    requires Inv(s)
    ensures RepeatsSerially(Flat(s.history))
  {
    hide LockInv, OwnInv, OutInv, Faithful;
    forall o: Oid ensures Faithful(0, Flat(s.history), o) {
      if o in s.objs { assert NumberOk(s, o); } else { Untouched(0, Flat(s.history), o); }
    }
    RepeatsByObject(Flat(s.history));
  }

  lemma CommittedValue(s: State, o: Oid)
    requires Inv(s) && o in s.objs
    ensures !Publishes(s, o) || s.objs[o].num.owner != 0 ==>
              s.objs[o].num.read == Get(FinalStore(Flat(s.history)), o)
    ensures Publishes(s, o) && s.objs[o].num.owner == 0 ==>
              var t := s.objs[o].holder.t;
              s.objs[o].num.read == Get(FinalStore(Flat(s.history + [Committed(t, s.txns[t].log)])), o)
  {
    hide LockInv, OwnInv, OutInv, Faithful, ValueAfter, FinalStore;
    assert NumberOk(s, o);
    StoreByObject(Flat(s.history), o);
    if Publishes(s, o) && s.objs[o].num.owner == 0 {
      var e := Committed(s.objs[o].holder.t, s.txns[s.objs[o].holder.t].log);
      ReplaySnoc(s.history, e, o);
      StoreByObject(Flat(s.history + [e]), o);
    }
  }

  /** What a transaction that owns an object has pending there is the history with the
      transaction's own calls run after it. */
  lemma PendingValue(states: seq<State>, steps: seq<Step>, i: nat, o: Oid)
    requires Run(states, steps) && i < |states| && o in states[i].objs && states[i].objs[o].num.owner != 0
    ensures var s := states[i];
            var t := s.objs[o].num.owner;
            && t in s.txns
            && s.objs[o].num.write == Get(FinalStore(Flat(s.history) + s.txns[t].log), o)
  {
    hide Next, InScope, Initial, LockInv, OwnInv, OutInv, Faithful, ValueAfter, FinalStore;
    Reached(states, steps, i);
    var s := states[i];
    assert NumberOk(s, o);
    var log := s.txns[s.objs[o].num.owner].log;
    ValueAfterConcat(0, Flat(s.history), log, o);
    StoreByObject(Flat(s.history) + log, o);
  }

  // -------------------------------------------------------------- atomic visibility

  lemma ReadHappens(s: State, step: Step, s': State)
    requires Next(s, step, s') && step.Read?
    ensures CanRead(s, step.k) && s' == DoRead(s, step.k)
  {
  }

  /** A read returns the value of the serial execution so far; through a transaction, with the
      calls of that transaction, and of no other unfinished one, on top. */
  lemma ReadIsSerial(states: seq<State>, steps: seq<Step>, i: nat)
    requires Run(states, steps) && i < |steps| && steps[i].Read?
    ensures var s, s' := states[i], states[i + 1];
            && |s'.seen| == |s.seen| + 1 && s.seen <= s'.seen
            && var r := s'.seen[|s.seen|];
               && r.oid == s.tasks[steps[i].k].oid && r.txn == s.tasks[steps[i].k].txn
               && r.at == |s.history| && r.own == OwnCalls(s, r.txn)
               && r.value == Get(FinalStore(Flat(s.history) + r.own), r.oid)
  {
    hide InScope, Initial, LockInv, OwnInv, OutInv, ValInv, Faithful, ValueAfter, FinalStore, Visible;
    Reached(states, steps, i);
    var s, k := states[i], steps[i].k;
    ReadHappens(s, steps[i], states[i + 1]);
    ReaderSees(s, k);
    var o, own := s.tasks[k].oid, OwnCalls(s, s.tasks[k].txn);
    ValueAfterConcat(0, Flat(s.history), own, o);
    StoreByObject(Flat(s.history) + own, o);
  }

  /** One more than the position of the last event with a call on `o`; 0 if there is none. */
  function LastWriter(history: seq<Event>, o: Oid): (n: nat)
    ensures n <= |history|
    ensures n > 0 ==> exists e :: e in EntriesOf(history[n - 1]) && e.oid == o
    ensures forall i, e | n <= i < |history| && e in EntriesOf(history[i]) :: e.oid != o
  {
    if history == [] then 0
    else if exists e :: e in EntriesOf(history[|history| - 1]) && e.oid == o then |history|
    else LastWriter(history[..|history| - 1], o)
  }

  /** Once a read by a non-owner returns a value published by the committed transaction `t`,
      every later read of any object that `t` wrote returns the value of `t` or a newer one:
      the last writer of what it returns is `t` or comes after `t`. */
  lemma AtomicVisibility(states: seq<State>, steps: seq<Step>, n: nat, i: nat, j: nat, t: TxnId, e: Entry)
    requires Run(states, steps) && n < |states|
    requires var s := states[n];
             && i < j < |s.seen| && t in s.txns && s.txns[t].state == CommittedState
             && LastWriter(s.history[..SeenAt(s, i)], s.seen[i].oid) == s.txns[t].slot + 1
             && e in s.txns[t].log && e.oid == s.seen[j].oid
    ensures var s := states[n];
            && s.seen[j].at <= |s.history|
            && LastWriter(s.history[..s.seen[j].at], e.oid) >= s.txns[t].slot + 1
            && s.seen[j].value
               == ValueAfter(Get(FinalStore(Flat(s.history[..s.seen[j].at])), e.oid), s.seen[j].own, e.oid)
  {
    hide Next, InScope, Initial, LockInv, OwnInv, OutcomeOk, NumberOk, ResultOk, ValueAfter, FinalStore;
    Reached(states, steps, n);
    var s := states[n];
    assert ObservationOk(s.history, s.seen[j]);
    StoreByObject(Flat(s.history[..s.seen[j].at]), e.oid);
    TxnIsFine(s, t);
    TxnSlot(t, s.txns[t], s.history);
    assert e in EntriesOf(s.history[..s.seen[j].at][s.txns[t].slot]);
  }

  function SeenAt(s: State, i: nat): (at: nat)
    requires i < |s.seen|
    ensures at <= |s.history|
  {
    if s.seen[i].at <= |s.history| then s.seen[i].at else 0
  }

  lemma TxnSlot(t: TxnId, txn: Txn, history: seq<Event>)
    requires OutcomeOk(t, txn, history) && txn.state == CommittedState
    ensures txn.slot < |history| && history[txn.slot] == Committed(t, txn.log)
  {
  }

  // -------------------------------------------------------------------- the barrier

  /** The positions from the end of the marking loop to the release of the objects. */
  predicate PastBarrier(pc: TxnPc) {
    pc.BarrierTaken? || pc.Locking? || pc.Applying? || pc.Committing? || pc.Deciding? || pc.Ending?
  }

  predicate Touches(txn: Txn, o: Oid) { IndexOf(txn.groups, o) < |txn.groups| }

  lemma MarkedByOwner(s: State, t: TxnId, o: Oid)
    requires LockInv(s) && t in s.txns && PastBarrier(s.txns[t].pc) && Touches(s.txns[t], o)
    ensures o in s.objs && s.objs[o].pending == t && s.objs[o].locker == t && t != 0
  {
    hide ObjectOk, TaskOk;
    assert TxnOk(s, t);
    var groups := s.txns[t].groups;
    assert GroupOk(s.objs[groups[IndexOf(groups, o)].oid], t, s.txns[t].pc, IndexOf(groups, o), |groups|);
  }

  lemma HeldInRange(s: State, t: TxnId, o: Oid)
    requires LockInv(s) && t in s.txns && PastBarrier(s.txns[t].pc) && Touches(s.txns[t], o)
    ensures o in s.objs
    ensures s.objs[o].holder == TxnHolder(t)
            <==> In(IndexOf(s.txns[t].groups, o), HeldRange(s.txns[t].pc, |s.txns[t].groups|))
  {
    hide TaskOk;
    MarkedByOwner(s, t, o);
    assert TxnOk(s, t) && ObjectOk(s, o);
    var groups := s.txns[t].groups;
    assert GroupOk(s.objs[groups[IndexOf(groups, o)].oid], t, s.txns[t].pc, IndexOf(groups, o), |groups|);
    hide TxnOk;
  }

  /** Past the barrier, transactions have disjoint objects, which carry their id. The cursor of
      the locking loop splits the list into held and not yet held, and from the first atom to
      the last step of the commit loop every object is held, with no reader, writer or committer
      beside. */
  lemma Barrier(states: seq<State>, steps: seq<Step>, n: nat, t: TxnId, o: Oid)
    requires Run(states, steps) && n < |states| && t in states[n].txns
    requires PastBarrier(states[n].txns[t].pc) && Touches(states[n].txns[t], o)
    ensures var s := states[n];
            var txn := s.txns[t];
            && o in s.objs && s.objs[o].pending == t
            && (forall t' | t' in s.txns && t' != t && PastBarrier(s.txns[t'].pc) :: !Touches(s.txns[t'], o))
            && (txn.pc.Locking? ==> (s.objs[o].holder == TxnHolder(t) <==> IndexOf(txn.groups, o) < txn.pc.i))
            && (Choice(txn.pc).Some? ==>
                  s.objs[o].holder == TxnHolder(t) && s.objs[o].readers == {} && s.objs[o].committer == None)
  {
    hide Next, InScope, Initial, LockInv, OwnInv, OutInv, ValInv;
    Reached(states, steps, n);
    var s := states[n];
    MarkedByOwner(s, t, o);
    forall t' | t' in s.txns && t' != t && PastBarrier(s.txns[t'].pc) ensures !Touches(s.txns[t'], o) {
      if Touches(s.txns[t'], o) { MarkedByOwner(s, t', o); }
    }
    HeldInRange(s, t, o);
    if Choice(s.txns[t].pc).Some? { HeldAlone(s, t, o); }
  }

  lemma HeldAlone(s: State, t: TxnId, o: Oid)
    requires LockInv(s) && o in s.objs && s.objs[o].holder == TxnHolder(t)
    ensures s.objs[o].readers == {} && s.objs[o].committer == None
  {
    hide TaskOk, TxnOk;
    assert ObjectOk(s, o);
  }

  /** Marking is all or none: an id is on an object only while its transaction is marking under
      the manager lock, past the barrier, or releasing under the manager lock. */
  lemma MarkingUnderManager(states: seq<State>, steps: seq<Step>, n: nat, o: Oid)
    requires Run(states, steps) && n < |states| && o in states[n].objs && states[n].objs[o].pending != 0
    ensures var s := states[n];
            var t := s.objs[o].pending;
            && t in s.txns && Touches(s.txns[t], o)
            && (PastBarrier(s.txns[t].pc) || s.manager == t)
  {
    hide Next, InScope, Initial, OwnInv, OutInv, ValInv, TaskOk;
    Reached(states, steps, n);
    var s := states[n];
    assert ObjectOk(s, o);
    var t := s.objs[o].pending;
    hide ObjectOk;
    assert TxnOk(s, t);
  }

  /** The task that raised COMMIT has a result on the object, so the number is its transaction's. */
  lemma CommitterOfOwner(s: State, o: Oid)
    requires LockInv(s) && OwnInv(s) && o in s.objs && s.objs[o].sem.commit
    ensures s.objs[o].committer.Some?
    ensures var k := s.objs[o].committer.value;
            && k in s.tasks && s.objs[o].num.owner == s.tasks[k].txn
            && (s.tasks[k].txn != 0 ==> s.tasks[k].txn in s.txns && s.txns[s.tasks[k].txn].joined != {})
  {
    hide TxnOk, GroupsOk, OwnedOk;
    assert ObjectOk(s, o);
    var k := s.objs[o].committer.value;
    assert TaskOk(s, k) && WriterOk(s, k);
  }

  lemma LockerAtWork(s: State, o: Oid)
    requires LockInv(s) && o in s.objs && s.objs[o].sem.lock
    ensures var t := s.objs[o].locker;
            && t != 0 && t in s.txns && s.txns[t].joined == {} && Touches(s.txns[t], o)
            && (!BeforeApply(s.txns[t].pc) ==> s.objs[o].holder == TxnHolder(t))
  {
    hide TaskOk, IndexOf;
    assert ObjectOk(s, o);
    var t := s.objs[o].locker;
    assert TxnOk(s, t);
    var groups := s.txns[t].groups;
    assert GroupOk(s.objs[groups[IndexOf(groups, o)].oid], t, s.txns[t].pc, IndexOf(groups, o), |groups|);
  }

  /** COMMIT and LOCK are never raised together: a transaction that has got to marking owns what
      it wrote, and no other task has a result there. A semaphore with both flags up would refuse
      both the commit, which wants COMMIT alone, and the lock, which wants LOCK alone, for ever. */
  lemma FlagsApart(states: seq<State>, steps: seq<Step>, n: nat, o: Oid)
    requires Run(states, steps) && n < |states| && o in states[n].objs
    ensures !(states[n].objs[o].sem.commit && states[n].objs[o].sem.lock)
  {
    hide Next, InScope, Initial, LockInv, OwnInv, OutInv, ValInv;
    Reached(states, steps, n);
    var s := states[n];
    if s.objs[o].sem.commit && s.objs[o].sem.lock {
      var t := s.objs[o].locker;
      LockerAtWork(s, o);
      CommitterOfOwner(s, o);
      if BeforeApply(s.txns[t].pc) { ListedIsOwned(s, t, o); } else { HeldAlone(s, t, o); }
    }
  }

  /** Such a word would stay: no operation of the protocol changes it unless somebody holds the
      object. */
  lemma BothFlagsStay(op: RwcSem.Op)
    requires op != RwcSem.ReleaseRead && op != RwcSem.ReleaseWrite && op != RwcSem.ReleaseCommit
             && op != RwcSem.ReleaseLock
    ensures var w := RwcSem.Word(0, false, true, true); Try(op, w) in {Refusal, Spin, Success(w)}
  {
  }

  // ------------------------------------------------------------- frozen transactions

  /** From the flag of the submission up to the end, nobody joins. */
  predicate Closed(pc: TxnPc) { CommitRaised(pc) || pc.Finished? }

  /** From the acquisition of its own semaphore on, a transaction is on its own. */
  predicate Frozen(pc: TxnPc) { CommitAcquired(pc) || pc.Finished? }

  /** What later steps leave of a transaction: who is joined may only leave, until it has finished;
      once frozen, its calls, the objects of its list, its failures and its request are final, and once decided
      so is its state. */
  predicate Lasts(txn: Txn, txn': Txn) {
    && (txn.pc.Finished? ==> txn'.pc.Finished?)
    && (Closed(txn.pc) ==> Closed(txn'.pc) && (txn'.pc.Finished? || txn'.joined <= txn.joined))
    && (Frozen(txn.pc) ==>
          && Frozen(txn'.pc) && (txn'.pc.Finished? || txn'.joined == {})
          && txn'.log == txn.log && txn'.failed == txn.failed && txn'.wants == txn.wants
          && SameOids(txn.groups, txn'.groups))
    && (!Undecided(txn.pc) ==>
          !Undecided(txn'.pc) && txn'.state == txn.state && txn'.slot == txn.slot && txn'.effects == txn.effects)
  }

  lemma LastsTwice(a: Txn, b: Txn, c: Txn)
    requires Lasts(a, b) && Lasts(b, c)
    ensures Lasts(a, c)
  {
  }

  lemma OthersLast(txn: Txn)
    requires Frozen(txn.pc) && !txn.pc.Finished? ==> txn.joined == {}
    ensures Lasts(txn, txn)
  {
  }

  lemma FrozenIsEmpty(s: State, t: TxnId)
    requires LockInv(s) && t in s.txns
    ensures Frozen(s.txns[t].pc) && !s.txns[t].pc.Finished? ==> s.txns[t].joined == {}
    ensures Closed(s.txns[t].pc) && !s.txns[t].pc.Finished? ==> s.txns[t].sem.commit
  {
    hide ObjectOk, TaskOk;
    assert TxnOk(s, t);
  }

  /** The try-acquire of an operation on a transaction succeeds exactly while COMMIT is not
      raised: before the submission, and again after the transaction has finished. */
  lemma JoinExact(s: State, k: TaskId)
    requires LockInv(s) && CanJoin(s, k)
    ensures k in DoJoin(s, k).txns[s.tasks[k].txn].joined
            <==> !Closed(s.txns[s.tasks[k].txn].pc) || s.txns[s.tasks[k].txn].pc.Finished?
  {
    hide ObjectOk, Try, TaskOk, GroupOk;
    assert TxnOk(s, s.tasks[k].txn);
    NotJoinedYet(s, k);
    TryReads(s.txns[s.tasks[k].txn].sem);
  }

  lemma NotJoinedYet(s: State, k: TaskId)
    requires LockInv(s) && CanJoin(s, k)
    ensures k !in s.txns[s.tasks[k].txn].joined
  {
    hide ObjectOk, TaskOk;
    assert TxnOk(s, s.tasks[k].txn);
  }

  lemma JoinLasts(s: State, k: TaskId)
    requires LockInv(s) && CanJoin(s, k) && InScope(s, Join(k))
    ensures var t := s.tasks[k].txn; Lasts(s.txns[t], DoJoin(s, k).txns[t])
  {
    hide LockInv, Try;
    FrozenIsEmpty(s, s.tasks[k].txn);
    TryReads(s.txns[s.tasks[k].txn].sem);
  }

  lemma LeaveLasts(s: State, k: TaskId)
    requires LockInv(s) && CanLeave(s, k) && s.tasks[k].txn != 0
    ensures var t := s.tasks[k].txn; Lasts(s.txns[t], DoLeave(s, k).txns[t])
  {
    hide LockInv, Try;
    FrozenIsEmpty(s, s.tasks[k].txn);
  }

  lemma WriteLasts(s: State, k: TaskId)
    requires LockInv(s) && OwnInv(s) && OutInv(s) && CanWrite(s, k) && s.tasks[k].txn != 0 && !LateWrite(s, k)
    ensures var t := s.tasks[k].txn; Lasts(s.txns[t], DoWrite(s, k).txns[t])
  {
    hide LockInv, OwnInv, OutInv;
    TaskIsLocal(s, k);
    JoinedMeansEarly(s, k);
    WriteShape(s, k);
    hide DoWrite, LocalOk;
    WriteJoined(s, k);
  }

  lemma WriteJoined(s: State, k: TaskId)
    requires CanWrite(s, k) && s.tasks[k].txn != 0
    ensures var t := s.tasks[k].txn;
            && t in DoWrite(s, k).txns && DoWrite(s, k).txns[t].joined == s.txns[t].joined
            && DoWrite(s, k).txns[t].pc == s.txns[t].pc
  {
    hide Execute, AddAtom;
  }

  /** Only entering, leaving and writing touch a transaction from a task. */
  predicate TouchesTxn(step: Step) { step.Join? || step.Leave? || step.Write? }

  lemma TaskLasts(s: State, step: Step, s': State, t: TxnId)
    requires LockInv(s) && OwnInv(s) && OutInv(s) && NextTask(s, step, s') && InScope(s, step) && t in s.txns
    ensures t in s'.txns && Lasts(s.txns[t], s'.txns[t])
  {
    hide LockInv, OwnInv, OutInv, Lasts;
    NoTxnZero(s);
    FrozenIsEmpty(s, t);
    OthersLast(s.txns[t]);
    if TouchesTxn(step) {
      TouchedTxn(s, step, s');
      if t == s.tasks[step.k].txn && t != 0 {
        hide InScope, DoJoin, DoLeave, DoWrite;
        if step.Join? { JoinLasts(s, step.k); }
        else if step.Leave? { LeaveLasts(s, step.k); }
        else { WriteLasts(s, step.k); }
      }
    } else {
      TxnsStay(s, step, s');
    }
  }

  lemma TouchedTxn(s: State, step: Step, s': State)
    requires NextTask(s, step, s') && TouchesTxn(step)
    ensures step.k in s.tasks
    ensures forall t | t in s.txns && (t != s.tasks[step.k].txn || (t == 0 && !step.Join?)) ::
              t in s'.txns && s'.txns[t] == s.txns[t]
    ensures s.tasks[step.k].txn in s.txns ==> s.tasks[step.k].txn in s'.txns
  {
    hide Try, Execute, AddAtom;
  }

  lemma TxnsStay(s: State, step: Step, s': State)
    requires NextTask(s, step, s') && !TouchesTxn(step)
    ensures s'.txns == s.txns
  {
    hide Try, Execute, AddAtom, Visible, CommitNumber;
  }

  lemma SubmitLasts(s: State, t: TxnId, commit: bool)
    requires LockInv(s) && CanSubmit(s, t)
    ensures Lasts(s.txns[t], DoSubmit(s, t, commit).txns[t])
  {
    hide LockInv;
    CachedIsOpen(s, t);
  }

  lemma DecideLasts(s: State, t: TxnId)
    requires LockInv(s) && CanDecide(s, t)
    ensures Lasts(s.txns[t], DoDecide(s, t).txns[t])
  {
    hide LockInv;
    FrozenIsEmpty(s, t);
  }

  lemma ApplyLasts(s: State, t: TxnId)
    requires LockInv(s) && CanApplyAtom(s, t)
    ensures Lasts(s.txns[t], DoApplyAtom(s, t).txns[t])
  {
    hide LockInv;
    FrozenIsEmpty(s, t);
  }

  lemma AcquireLasts(s: State, t: TxnId)
    requires LockInv(s) && CanAcquireTxn(s, t)
    ensures Lasts(s.txns[t], DoAcquireTxn(s, t).txns[t])
    ensures DoAcquireTxn(s, t).txns[t].pc.AtBarrier? <==> s.txns[t].joined == {}
  {
    hide ObjectOk, TaskOk, Try;
    assert TxnOk(s, t);
    TryCommits(s.txns[t].sem);
  }

  /** The remaining moves go along the list of positions. */
  predicate Forward(pc: TxnPc, pc': TxnPc) {
    && (pc.Finished? ==> pc'.Finished?) && (Closed(pc) ==> Closed(pc')) && (Frozen(pc) ==> Frozen(pc'))
    && (!Undecided(pc) ==> !Undecided(pc'))
  }

  predicate MovesForward(s: State, s': State, t: TxnId) {
    && t in s'.txns
    && (t in s.txns ==>
          && s'.txns[t] == s.txns[t].(sem := s'.txns[t].sem, pc := s'.txns[t].pc)
          && (if s.txns[t].pc.Removed? then !Frozen(s'.txns[t].pc) else Forward(s.txns[t].pc, s'.txns[t].pc)))
  }

  lemma OpeningForward(s: State, step: Step, s': State)
    requires NextTxn(s, step, s') && (step.Create? || step.RaiseTxnCommit? || step.TakeManager?)
    ensures MovesForward(s, s', step.t)
  {
    hide Try, CommitNumber;
  }

  lemma MarkingForward(s: State, step: Step, s': State)
    requires NextTxn(s, step, s') && (step.Check? || step.Mark? || step.DropManager?)
    ensures MovesForward(s, s', step.t)
  {
    hide Try, CommitNumber;
  }

  lemma LockingForward(s: State, step: Step, s': State)
    requires NextTxn(s, step, s') && (step.MarkLock? || step.LockObject?)
    ensures MovesForward(s, s', step.t)
  {
    hide Try, CommitNumber;
  }

  lemma CommittingForward(s: State, step: Step, s': State)
    requires NextTxn(s, step, s') && (step.CommitObject? || step.CloseTxn?)
    ensures MovesForward(s, s', step.t)
  {
    hide Try, CommitNumber;
  }

  lemma ReleasingForward(s: State, step: Step, s': State)
    requires NextTxn(s, step, s') && (step.ReleaseObject? || step.ClearPending?)
    ensures MovesForward(s, s', step.t)
  {
    hide Try, CommitNumber;
  }

  lemma PlainForward(s: State, step: Step, s': State)
    requires NextTxn(s, step, s') && !step.Submit? && !step.Decide? && !step.ApplyAtom? && !step.AcquireTxn?
    ensures MovesForward(s, s', step.t)
  {
    IsTxnStep(s, step, s');
    hide NextTxn, MovesForward;
    if step.Create? || step.RaiseTxnCommit? || step.TakeManager? { OpeningForward(s, step, s'); }
    else if step.Check? || step.Mark? || step.DropManager? { MarkingForward(s, step, s'); }
    else if step.MarkLock? || step.LockObject? { LockingForward(s, step, s'); }
    else if step.CommitObject? || step.CloseTxn? { CommittingForward(s, step, s'); }
    else { ReleasingForward(s, step, s'); }
  }

  lemma PlainLasts(txn: Txn, txn': Txn)
    requires txn' == txn.(sem := txn'.sem, pc := txn'.pc)
    requires if txn.pc.Removed? then !Frozen(txn'.pc) else Forward(txn.pc, txn'.pc)
    requires Frozen(txn.pc) && !txn.pc.Finished? ==> txn.joined == {}
    ensures Lasts(txn, txn')
  {
  }

  lemma MovesItself(s: State, s': State, t: TxnId, o: Oid)
    requires TxnMoves(s, s', t, o)
    ensures t in s'.txns
    ensures forall t' | t' in s.txns && t' != t :: t' in s'.txns && s'.txns[t'] == s.txns[t']
  {
  }

  lemma AtomItself(s: State, t: TxnId)
    requires CanApplyAtom(s, t)
    ensures var s' := DoApplyAtom(s, t);
            t in s'.txns && forall t' | t' in s.txns && t' != t :: t' in s'.txns && s'.txns[t'] == s.txns[t']
  {
    hide ApplyNumber, RevertNumber;
  }

  lemma OnlyItself(s: State, step: Step, s': State)
    requires LockInv(s) && NextTxn(s, step, s')
    ensures step.t in s'.txns
    ensures forall t | t in s.txns && t != step.t :: t in s'.txns && s'.txns[t] == s.txns[t]
  {
    hide LockInv, TxnMoves, DoApplyAtom;
    IsTxnStep(s, step, s');
    if step.ApplyAtom? {
      AtomItself(s, step.t);
    } else {
      if step.Submit? { CachedIsOpen(s, step.t); }
      TxnStepMoves(s, step, s');
      MovesItself(s, s', step.t, TouchedBy(s, step.t));
    }
  }

  lemma TxnLasts(s: State, step: Step, s': State, t: TxnId)
    requires LockInv(s) && NextTxn(s, step, s') && t in s.txns
    ensures t in s'.txns && Lasts(s.txns[t], s'.txns[t])
  {
    hide LockInv, Lasts;
    OnlyItself(s, step, s');
    FrozenIsEmpty(s, t);
    OthersLast(s.txns[t]);
    hide DoSubmit, DoDecide, DoApplyAtom, DoAcquireTxn, Forward;
    if t == step.t {
      if step.Submit? { SubmitLasts(s, t, step.commit); }
      else if step.Decide? { DecideLasts(s, t); }
      else if step.ApplyAtom? { ApplyLasts(s, t); }
      else if step.AcquireTxn? { AcquireLasts(s, t); }
      else {
        PlainForward(s, step, s');
        PlainLasts(s.txns[t], s'.txns[t]);
      }
    }
  }

  lemma StepLasts(s: State, step: Step, s': State, t: TxnId)
    requires Inv(s) && Next(s, step, s') && InScope(s, step) && t in s.txns
    ensures t in s'.txns && Lasts(s.txns[t], s'.txns[t])
  {
    hide LockInv, OwnInv, OutInv, ValInv, NextTask, NextTxn, InScope, Lasts;
    if NextTask(s, step, s') { TaskLasts(s, step, s', t); } else { TxnLasts(s, step, s', t); }
  }

  /** Along every run in scope: from its COMMIT flag up to its end no operation joins a transaction,
      while after the end one may, to read; once it has acquired its own semaphore, which takes that
      all joined operations have released, its calls and the objects of its list stay as they are up
      to its completion and after; and once decided its state and effects are final. */
  lemma {:induction false} FrozenForGood(states: seq<State>, steps: seq<Step>, i: nat, j: nat, t: TxnId)
    requires Run(states, steps) && i <= j < |states| && t in states[i].txns
    ensures t in states[j].txns && Lasts(states[i].txns[t], states[j].txns[t])
  {
    hide Next, InScope, Initial, Lasts;
    if i < j {
      FrozenForGood(states, steps, i, j - 1, t);
      Reached(states, steps, j - 1);
      hide Inv;
      StepLasts(states[j - 1], steps[j - 1], states[j], t);
      LastsTwice(states[i].txns[t], states[j - 1].txns[t], states[j].txns[t]);
    } else {
      Reached(states, steps, i);
      hide LockInv, OwnInv, OutInv, ValInv;
      FrozenIsEmpty(states[i], t);
      OthersLast(states[i].txns[t]);
    }
  }

  // ------------------------------------------------------- ownership and all or nothing

  /** In every reachable state a number belongs to transaction `t` exactly when its atom occurs
      in the lists of `t`; it occurs there at most once, and never in those of a transaction that
      has been through its write loop. */
  lemma Ownership(states: seq<State>, steps: seq<Step>, n: nat, o: Oid, t: TxnId)
    requires Run(states, steps) && n < |states| && o in states[n].objs && t in states[n].txns
    ensures var s := states[n];
            && multiset(AtomsOf(s.txns[t].groups))[o] == (if s.objs[o].num.owner == t then 1 else 0)
            && DistinctGroups(s.txns[t].groups)
            && (s.objs[o].num.owner == t ==> BeforeApply(s.txns[t].pc) || s.txns[t].pc.Applying?)
  {
    hide Next, InScope, Initial, LockInv, OwnInv, OutInv, ValInv;
    Reached(states, steps, n);
    NoTxnZero(states[n]);
    OwnershipExact(states[n], o, t);
  }

  /** The assertions of the write loop and of the release loop hold: the atom is the one embedded
      in the number, which belongs to the transaction; the object released carries its id. */
  lemma AssertionsHold(states: seq<State>, steps: seq<Step>, n: nat, t: TxnId)
    requires Run(states, steps) && n < |states| && t in states[n].txns
    requires var txn := states[n].txns[t];
             (txn.pc.Applying? || txn.pc.Releasing?) && txn.pc.i < |txn.groups|
    ensures var s := states[n];
            var txn := s.txns[t];
            var g := txn.groups[txn.pc.i];
            && g.oid in s.objs
            && (txn.pc.Applying? && g.atoms != [] ==> g.atoms == [g.oid] && s.objs[g.oid].num.owner == t)
            && (txn.pc.Releasing? ==> s.objs[g.oid].pending == t)
  {
    hide Next, InScope, Initial, OutInv, ValInv, OwnInv;
    Reached(states, steps, n);
    var s := states[n];
    var txn := s.txns[t];
    CursorOnList(s, t);
    hide LockInv;
    if txn.pc.Applying? && txn.groups[txn.pc.i].atoms != [] { AtomAtCursor(s, t); }
  }

  lemma CursorOnList(s: State, t: TxnId)
    requires LockInv(s) && t in s.txns && (s.txns[t].pc.Applying? || s.txns[t].pc.Releasing?)
    requires s.txns[t].pc.i < |s.txns[t].groups|
    ensures s.txns[t].groups[s.txns[t].pc.i].oid in s.objs
    ensures s.txns[t].pc.Releasing? ==> s.objs[s.txns[t].groups[s.txns[t].pc.i].oid].pending == t
  {
    hide ObjectOk, TaskOk;
    assert TxnOk(s, t);
    hide TxnOk;
    assert GroupOk(s.objs[s.txns[t].groups[s.txns[t].pc.i].oid], t, s.txns[t].pc, s.txns[t].pc.i, |s.txns[t].groups|);
  }

  /** In every reachable state a transaction that has decided is COMMITTED if and only if a commit
      was asked for and none of its writes failed; it has then applied the atom of every object
      it wrote, once each and in list order, and otherwise reverted them; and the history holds
      it exactly in the first case, with the calls it made. */
  lemma DecidedExactly(states: seq<State>, steps: seq<Step>, n: nat, t: TxnId)
    requires Run(states, steps) && n < |states| && t in states[n].txns && !Undecided(states[n].txns[t].pc)
    ensures var s := states[n];
            var txn := s.txns[t];
            && (txn.state == CommittedState || txn.state == RolledBack)
            && (txn.state == CommittedState <==> txn.wants && !txn.failed)
            && txn.effects == EffectsOf(txn.state == CommittedState, txn.groups)
            && DistinctGroups(txn.groups) && (forall e | e in txn.log :: exists g :: g in txn.groups && g.oid == e.oid)
            && (forall i, log | 0 <= i < |s.history| && s.history[i] == Committed(t, log) ::
                  txn.state == CommittedState && i == txn.slot && log == txn.log)
            && (txn.state == CommittedState ==> txn.slot < |s.history| && s.history[txn.slot] == Committed(t, txn.log))
  {
    hide Next, InScope, Initial, LockInv, OwnInv, OutInv, ValInv;
    Reached(states, steps, n);
    var s := states[n];
    AllOrNothing(s, t);
    forall i, log | 0 <= i < |s.history| && s.history[i] == Committed(t, log)
      ensures s.txns[t].state == CommittedState && i == s.txns[t].slot && log == s.txns[t].log
    {
      HistoryExact(s, t, i);
    }
  }
}
