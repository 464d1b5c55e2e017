/** What one step leaves alone. Every step moves one task or one transaction; most of them
    change neither numbers nor lists. */
module TxnFrames {
  import opened Common
  import opened Calls
  import opened TxnMachine

  /** The write function has run and its result is not published. */
  predicate Unpublished(pc: Pc) {
    pc.Written? || pc.Flagged? || pc.Unswitched? || pc.CommitWait? || pc.CommitHeld?
  }

  /** The loop of TXN_SCHED_WRITE has not started. */
  predicate BeforeApply(pc: TxnPc) {
    pc.Open? || pc.Removed? || pc.Waiting? || pc.AtBarrier? || pc.Checking? || pc.BarrierBusy?
    || pc.Marking? || pc.MarkingLock? || pc.BarrierTaken? || pc.Locking?
  }

  predicate AfterApply(pc: TxnPc) { !BeforeApply(pc) && !pc.Applying? }

  /** The atom lists that are right at `pc` are right at `pc'`. */
  predicate SameStage(pc: TxnPc, pc': TxnPc, groups: seq<Group>) {
    || pc' == pc
    || (BeforeApply(pc) && BeforeApply(pc'))
    || (AfterApply(pc) && AfterApply(pc'))
    || (BeforeApply(pc) && pc'.Applying? && pc'.i == 0)
    || (pc.Applying? && pc'.Applying? && pc'.i == pc.i + 1 && pc.i < |groups| && groups[pc.i].atoms == [])
    || (pc.Applying? && AfterApply(pc') && pc.i >= |groups|)
  }

  /** The owners, the groups and the logs are as before; new transactions are empty; no task
      has started to hold an unpublished write. */
  predicate Quiet(s: State, s': State) {
    && s'.objs.Keys == s.objs.Keys
    && (forall o | o in s.objs :: s'.objs[o].num.owner == s.objs[o].num.owner)
    && (forall t | t in s.txns ::
          && t in s'.txns
          && s'.txns[t].groups == s.txns[t].groups && s'.txns[t].log == s.txns[t].log
          && SameStage(s.txns[t].pc, s'.txns[t].pc, s.txns[t].groups))
    && (forall t | t in s'.txns && t !in s.txns :: t != 0 && s'.txns[t] == NewTxn)
    && (forall k | k in s'.tasks && (Unpublished(s'.tasks[k].pc) || s'.tasks[k].pc.CommitDone?) ::
          && k in s.tasks
          && (Unpublished(s.tasks[k].pc) || s.tasks[k].pc.CommitDone?)
          && s'.tasks[k].oid == s.tasks[k].oid && s'.tasks[k].txn == s.tasks[k].txn)
  }

  /** At most the object `o` changed, and not its owner. */
  predicate OwnerStays(s: State, s': State, o: Oid) {
    s'.objs == s.objs || (o in s.objs && o in s'.objs && s'.objs == s.objs[o := s'.objs[o]]
                          && s'.objs[o].num.owner == s.objs[o].num.owner)
  }

  predicate NumberStays(s: State, s': State, o: Oid) {
    o in s.objs && o in s'.objs ==> s'.objs[o].num == s.objs[o].num
  }

  /** Task steps lock no object for a transaction. */
  predicate NoNewLock(s: State, s': State, o: Oid) {
    o in s.objs && o in s'.objs && s'.objs[o].holder.TxnHolder? ==> s'.objs[o].holder == s.objs[o].holder
  }

  /** A transaction step locks objects for that transaction only, in the locking loop. */
  predicate NewLockIsOwn(s: State, s': State, o: Oid, t: TxnId, locking: bool) {
    o in s.objs && o in s'.objs && s'.objs[o].holder.TxnHolder? ==>
      s'.objs[o].holder == s.objs[o].holder || (locking && s'.objs[o].holder == TxnHolder(t))
  }

  predicate HoldsResult(pc: Pc) { Unpublished(pc) || pc.CommitDone? }

  predicate PcOf(s: State, k: TaskId, pc: Pc) { k in s.tasks && s.tasks[k].pc == pc }

  /** Task `k` moved, or nothing did. A result written stays written until its commit; only
      the commit of a task changes numbers and history. */
  predicate TaskMoves(s: State, s': State, k: TaskId) {
    && k in s'.tasks && s'.tasks == s.tasks[k := s'.tasks[k]]
    && (HoldsResult(s'.tasks[k].pc) ==> k in s.tasks && HoldsResult(s.tasks[k].pc))
    && (k in s.tasks ==> s'.tasks[k] == s.tasks[k].(pc := s'.tasks[k].pc))
    && (k in s.tasks && Unpublished(s.tasks[k].pc) ==>
          Unpublished(s'.tasks[k].pc) || s.tasks[k].pc.CommitHeld?)
    && (k in s.tasks && Unpublished(s'.tasks[k].pc) ==> Unpublished(s.tasks[k].pc))
    && OwnerStays(s, s', s'.tasks[k].oid) && NoNewLock(s, s', s'.tasks[k].oid)
    && (PcOf(s, k, CommitHeld) || (NumberStays(s, s', s'.tasks[k].oid) && s'.history == s.history))
    && (PcOf(s, k, ReadHeld) || s'.seen == s.seen)
    && (s'.txns == s.txns
        || var t := s'.tasks[k].txn;
           && t in s.txns && t in s'.txns && s'.txns == s.txns[t := s'.txns[t]]
           && s'.txns[t] == s.txns[t].(sem := s'.txns[t].sem, joined := s'.txns[t].joined))
  }

  lemma TaskMovesQuietly(s: State, s': State, k: TaskId)
    requires TaskMoves(s, s', k)
    ensures Quiet(s, s')
  {
  }

  /** What the position says of the request, and of the choice between apply and revert. */
  function Wish(pc: TxnPc): Option<bool> {
    match pc
    case Removed(c) => Some(c)
    case Waiting(c) => Some(c)
    case AtBarrier(c) => Some(c)
    case Checking(c, _) => Some(c)
    case BarrierBusy(c) => Some(c)
    case Marking(c, _) => Some(c)
    case MarkingLock(c, _) => Some(c)
    case BarrierTaken(c) => Some(c)
    case Locking(c, _) => Some(c)
    case _ => None
  }

  function Choice(pc: TxnPc): Option<bool> {
    match pc
    case Applying(a, _) => Some(a)
    case Committing(a, _) => Some(a)
    case Deciding(a) => Some(a)
    case _ => None
  }

  predicate SameChoice(pc: TxnPc, pc': TxnPc) {
    Wish(pc') == Wish(pc) && Choice(pc') == Choice(pc) && (pc'.Open? <==> pc.Open?)
  }

  /** Transaction `t` moved, keeping its lists. Only the decision extends the history, and only
      the commit loop may change a number, which keeps its owner. */
  predicate TxnMoves(s: State, s': State, t: TxnId, o: Oid) {
    && t in s'.txns && s'.txns == s.txns[t := s'.txns[t]] && s'.tasks == s.tasks && s'.seen == s.seen
    && OwnerStays(s, s', o)
    && (if t in s.txns then
          var txn, txn' := s.txns[t], s'.txns[t];
          && NewLockIsOwn(s, s', o, t, txn.pc.Locking? && BeforeApply(txn'.pc))
          && txn'.groups == txn.groups && txn'.log == txn.log
          && SameStage(txn.pc, txn'.pc, txn.groups)
          && (txn.pc.Deciding? || s'.history == s.history)
          && (txn.pc.Committing? || NumberStays(s, s', o))
          && (txn.pc.Deciding? || txn.pc.Open? || txn' == txn.(sem := txn'.sem, pc := txn'.pc))
          && (txn.pc.Deciding? || txn.pc.Open? || (txn.pc.Locking? && txn'.pc.Applying?) || SameChoice(txn.pc, txn'.pc))
        else t != 0 && s'.txns[t] == NewTxn && s'.objs == s.objs && s'.history == s.history)
  }

  lemma TxnMovesQuietly(s: State, s': State, t: TxnId, o: Oid)
    requires TxnMoves(s, s', t, o)
    ensures Quiet(s, s')
  {
    hide SameStage;
    assert forall t' | t' in s'.txns && t' !in s.txns :: t' == t;
    forall t' | t' in s.txns ensures SameStage(s.txns[t'].pc, s'.txns[t'].pc, s.txns[t'].groups) {
      if t' != t { StaysInStage(s.txns[t'].pc, s.txns[t'].groups); }
    }
  }

  lemma StaysInStage(pc: TxnPc, groups: seq<Group>)
    ensures SameStage(pc, pc, groups)
  {
  }

  lemma EntryMoves(s: State, step: Step, s': State)
    requires NextTask(s, step, s')
    requires step.Issue? || step.LookUp? || step.Join?
    ensures TaskMoves(s, s', step.k)
  {
    hide Try, Execute, Visible;
  }

  lemma ExitMoves(s: State, step: Step, s': State)
    requires NextTask(s, step, s')
    requires step.Leave? || step.Gate?
    ensures TaskMoves(s, s', step.k)
  {
    hide Try, Execute, Visible;
  }

  lemma GrabMoves(s: State, step: Step, s': State)
    requires NextTask(s, step, s')
    requires step.GrabRead? || step.GrabWrite? || step.GrabCommit?
    ensures TaskMoves(s, s', step.k)
  {
    hide Try, Execute, Visible;
  }

  lemma ReadMoves(s: State, step: Step, s': State)
    requires NextTask(s, step, s')
    requires step.Read? || step.ReleaseRead?
    ensures TaskMoves(s, s', step.k)
  {
    hide Try, Execute, Visible;
  }

  lemma WriteMoves(s: State, step: Step, s': State)
    requires NextTask(s, step, s')
    requires step.RaiseCommit? || step.Switch? || step.ReleaseFailed? || step.ReleaseUnswitched?
    ensures TaskMoves(s, s', step.k)
  {
    hide Try, Execute, Visible;
  }

  lemma CommitMoves(s: State, step: Step, s': State)
    requires NextTask(s, step, s')
    requires step.Commit? || step.ReleaseCommit?
    ensures TaskMoves(s, s', step.k)
  {
    hide Try, Execute, Visible;
  }

  lemma TaskStepMoves(s: State, step: Step, s': State)
    requires NextTask(s, step, s') && !step.Write?
    ensures TaskMoves(s, s', step.k)
  {
    hide NextTask, TaskMoves;
    if step.Issue? || step.LookUp? || step.Join? { EntryMoves(s, step, s'); }
    else if step.GrabRead? || step.GrabWrite? || step.GrabCommit? { GrabMoves(s, step, s'); }
    else if step.Read? || step.ReleaseRead? { ReadMoves(s, step, s'); }
    else if step.RaiseCommit? || step.Switch? { WriteMoves(s, step, s'); }
    else if step.ReleaseFailed? || step.ReleaseUnswitched? { WriteMoves(s, step, s'); }
    else if step.Commit? || step.ReleaseCommit? { CommitMoves(s, step, s'); }
    else { IsTaskStep(s, step, s'); ExitMoves(s, step, s'); }
  }

  lemma IsTaskStep(s: State, step: Step, s': State)
    requires NextTask(s, step, s')
    ensures !step.Create? && !step.Submit? && !step.RaiseTxnCommit? && !step.AcquireTxn? && !step.TakeManager?
            && !step.Check? && !step.Mark? && !step.MarkLock? && !step.DropManager? && !step.LockObject?
            && !step.ApplyAtom? && !step.CommitObject? && !step.Decide? && !step.ReleaseObject?
            && !step.ClearPending? && !step.CloseTxn?
  {
  }

  /** The object the step of `t` may touch. */
  function Touched(txn: Txn): Oid {
    if (txn.pc.Marking? || txn.pc.MarkingLock? || txn.pc.Locking? || txn.pc.Committing?
        || txn.pc.Releasing? || txn.pc.Clearing?) && txn.pc.i < |txn.groups|
    then txn.groups[txn.pc.i].oid else 0
  }

  function TouchedBy(s: State, t: TxnId): Oid { if t in s.txns then Touched(s.txns[t]) else 0 }

  lemma OpeningMoves(s: State, step: Step, s': State)
    requires NextTxn(s, step, s')
    requires step.Create? || step.Submit? || step.RaiseTxnCommit? || step.AcquireTxn? || step.TakeManager?
    requires step.Submit? ==> s.txns[step.t].pc.Open?
    ensures TxnMoves(s, s', step.t, TouchedBy(s, step.t))
  {
    hide Try, Execute;
  }

  lemma CheckMoves(s: State, step: Step, s': State)
    requires NextTxn(s, step, s')
    requires step.Check? || step.Mark? || step.DropManager?
    ensures TxnMoves(s, s', step.t, TouchedBy(s, step.t))
  {
    hide Try, Execute;
  }

  lemma LockMoves(s: State, step: Step, s': State)
    requires NextTxn(s, step, s')
    requires step.MarkLock? || step.LockObject?
    ensures TxnMoves(s, s', step.t, TouchedBy(s, step.t))
  {
    hide Try, Execute;
  }

  lemma ApplyMoves(s: State, step: Step, s': State)
    requires NextTxn(s, step, s')
    requires step.ApplyAtom? || step.CommitObject?
    requires step.ApplyAtom? ==>
               var txn := s.txns[step.t]; txn.pc.i >= |txn.groups| || txn.groups[txn.pc.i].atoms == []
    ensures TxnMoves(s, s', step.t, TouchedBy(s, step.t))
  {
    hide Try, Execute;
  }

  lemma EndMoves(s: State, step: Step, s': State)
    requires NextTxn(s, step, s')
    requires step.Decide? || step.CloseTxn?
    ensures TxnMoves(s, s', step.t, TouchedBy(s, step.t))
  {
    hide Try, Execute;
  }

  lemma ReleaseMoves(s: State, step: Step, s': State)
    requires NextTxn(s, step, s')
    requires step.ReleaseObject? || step.ClearPending?
    ensures TxnMoves(s, s', step.t, TouchedBy(s, step.t))
  {
    hide Try, Execute;
  }

  lemma TxnStepMoves(s: State, step: Step, s': State)
    requires NextTxn(s, step, s')
    requires step.ApplyAtom? ==>
               var txn := s.txns[step.t]; txn.pc.i >= |txn.groups| || txn.groups[txn.pc.i].atoms == []
    requires step.Submit? ==> s.txns[step.t].pc.Open?
    ensures TxnMoves(s, s', step.t, TouchedBy(s, step.t))
  {
    IsTxnStep(s, step, s');
    hide NextTxn, TxnMoves, TouchedBy;
    if step.Create? || step.Submit? || step.RaiseTxnCommit? || step.AcquireTxn? || step.TakeManager? {
      OpeningMoves(s, step, s');
    } else if step.Check? || step.Mark? || step.DropManager? {
      CheckMoves(s, step, s');
    } else if step.MarkLock? || step.LockObject? {
      LockMoves(s, step, s');
    } else if step.ApplyAtom? || step.CommitObject? {
      ApplyMoves(s, step, s');
    } else if step.Decide? || step.CloseTxn? {
      EndMoves(s, step, s');
    } else {
      ReleaseMoves(s, step, s');
    }
  }

  lemma IsTxnStep(s: State, step: Step, s': State)
    requires NextTxn(s, step, s')
    ensures step.Create? || step.Submit? || step.RaiseTxnCommit? || step.AcquireTxn? || step.TakeManager?
            || step.Check? || step.Mark? || step.MarkLock? || step.DropManager? || step.LockObject?
            || step.ApplyAtom? || step.CommitObject? || step.Decide? || step.ReleaseObject?
            || step.ClearPending? || step.CloseTxn?
    ensures step.ApplyAtom? ==> CanApplyAtom(s, step.t)
    ensures step.Submit? ==> CanSubmit(s, step.t)
  {
  }
}
