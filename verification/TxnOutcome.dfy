/** How transactions end: all or nothing, decided once, by the writes of the transaction. */
module TxnOutcome {
  import opened Common
  import opened Calls
  import opened TxnMachine
  import opened TxnFrames
  import opened TxnLocking
  import opened TxnOwnership

  predicate Undecided(pc: TxnPc) { BeforeApply(pc) || Choice(pc).Some? }

  /** What the transaction does to its atoms, once it has chosen. */
  predicate Applies(txn: Txn) {
    match Choice(txn.pc)
    case Some(apply) => apply
    case None => txn.state == CommittedState
  }

  function EffectOn(apply: bool, o: Oid): AtomEffect { if apply then Applied(o) else Reverted(o) }

  /** The effects so far: one per consumed atom list, in the order of the groups. */
  predicate EffectsOk(txn: Txn) {
    && |txn.effects| <= |txn.groups|
    && (forall i | 0 <= i < |txn.groups| :: txn.groups[i].atoms == [] <==> i < |txn.effects|)
    && (forall i | 0 <= i < |txn.effects| :: txn.effects[i] == EffectOn(Applies(txn), txn.groups[i].oid))
  }

  /** The state word against the failures, the request and the position. */
  predicate StateOk(txn: Txn) {
    && (if Undecided(txn.pc) then txn.state == (if txn.failed then DontCommit else WaitCommit)
        else txn.state == if txn.wants && !txn.failed then CommittedState else RolledBack)
    && (Wish(txn.pc).Some? ==> txn.wants == Wish(txn.pc).value)
    && (Choice(txn.pc).Some? ==> Choice(txn.pc).value == (txn.wants && !txn.failed))
  }

  predicate SlotOk(t: TxnId, txn: Txn, history: seq<Event>) {
    txn.state == CommittedState ==>
      txn.slot < |history| && history[txn.slot] == Committed(t, txn.log)
  }

  predicate OutcomeOk(t: TxnId, txn: Txn, history: seq<Event>) {
    EffectsOk(txn) && StateOk(txn) && SlotOk(t, txn, history)
  }

  predicate EventOk(s: State, i: nat)
    requires i < |s.history|
  {
    match s.history[i]
    case Standalone(_) => true
    case Committed(t, _) => t in s.txns && s.txns[t].state == CommittedState && s.txns[t].slot == i
  }

  predicate OutInv(s: State) {
    && (forall t | t in s.txns :: OutcomeOk(t, s.txns[t], s.history))
    && (forall i | 0 <= i < |s.history| :: EventOk(s, i))
  }

  // --------------------------------------------------------------- one transaction

  lemma SlotStays(t: TxnId, txn: Txn, history: seq<Event>, history': seq<Event>)
    requires SlotOk(t, txn, history) && history <= history'
    ensures SlotOk(t, txn, history')
  {
  }

  lemma NewIsFine(t: TxnId, history: seq<Event>)
    ensures OutcomeOk(t, NewTxn, history)
  {
  }

  /** A move that neither decides nor changes what was chosen. */
  lemma MoveIsFine(t: TxnId, txn: Txn, txn': Txn, history: seq<Event>)
    requires OutcomeOk(t, txn, history)
    requires txn' == txn.(sem := txn'.sem, joined := txn'.joined, pc := txn'.pc)
    requires SameChoice(txn.pc, txn'.pc)
    ensures OutcomeOk(t, txn', history)
  {
  }

  lemma SubmitIsFine(t: TxnId, txn: Txn, commit: bool, history: seq<Event>)
    requires OutcomeOk(t, txn, history) && txn.pc.Open?
    ensures OutcomeOk(t, txn.(pc := Removed(commit), wants := commit), history)
  {
  }

  /** The end of the locking loop: apply if and only if a commit was asked for and nothing failed. */
  lemma ChoiceIsFine(t: TxnId, txn: Txn, history: seq<Event>)
    requires OutcomeOk(t, txn, history) && txn.pc.Locking?
    requires forall i | 0 <= i < |txn.groups| :: txn.groups[i].atoms != []
    ensures OutcomeOk(t, txn.(pc := Applying(txn.pc.commit && txn.state != DontCommit, 0)), history)
  {
    assert |txn.groups| > 0 ==> txn.groups[0].atoms != [];
    assert txn.effects == [];
  }

  lemma AtomIsFine(t: TxnId, txn: Txn, txn': Txn, history: seq<Event>)
    requires OutcomeOk(t, txn, history) && txn.pc.Applying? && txn.pc.i < |txn.groups|
    requires var i, g := txn.pc.i, txn.groups[txn.pc.i];
             && g.atoms == [g.oid]
             && (forall j | 0 <= j < i :: txn.groups[j].atoms == [])
             && txn' == txn.(groups := txn.groups[i := g.(atoms := [])],
                             effects := txn.effects + [EffectOn(txn.pc.apply, g.oid)])
    requires forall j | txn.pc.i < j < |txn.groups| :: txn.groups[j].atoms != []
    ensures OutcomeOk(t, txn', history)
  {
    assert |txn.effects| == txn.pc.i by {
      assert |txn.effects| < |txn.groups| ==> txn.groups[|txn.effects|].atoms != [];
    }
  }

  lemma DecisionIsFine(t: TxnId, txn: Txn, history: seq<Event>)
    requires OutcomeOk(t, txn, history) && txn.pc.Deciding?
    ensures if txn.pc.apply && txn.state != DontCommit then
              OutcomeOk(t, txn.(state := CommittedState, pc := Ending, slot := |history|),
                        history + [Committed(t, txn.log)])
            else OutcomeOk(t, txn.(state := RolledBack, pc := Ending), history)
  {
  }

  /** A write before the submission is through: the log and the lists grow, or the failure is noted. */
  lemma WriteIsFine(t: TxnId, txn: Txn, txn': Txn, history: seq<Event>)
    requires OutcomeOk(t, txn, history) && BeforeApply(txn.pc)
    requires forall i | 0 <= i < |txn.groups| :: txn.groups[i].atoms != []
    requires || txn' == txn.(state := DontCommit, failed := true)
             || (txn' == txn.(groups := txn'.groups, log := txn'.log)
                 && forall i | 0 <= i < |txn'.groups| :: txn'.groups[i].atoms != [])
    ensures OutcomeOk(t, txn', history)
  {
    assert |txn.groups| > 0 ==> txn.groups[0].atoms != [];
    assert txn.effects == [];
  }

  // ------------------------------------------------------------------- every step

  /** Only transaction `t` changed, and it is still in order. */
  lemma OneTxnKeeps(s: State, s': State, t: TxnId)
    requires OutInv(s)
    requires s'.txns == s.txns || (t in s'.txns && s'.txns == s.txns[t := s'.txns[t]]
                                   && OutcomeOk(t, s'.txns[t], s'.history))
    requires t in s.txns && t in s'.txns && s.txns[t].state == CommittedState ==>
               s'.txns[t].state == CommittedState && s'.txns[t].slot == s.txns[t].slot
    requires s.history <= s'.history
    requires forall i | |s.history| <= i < |s'.history| :: EventOk(s', i)
    ensures OutInv(s')
  {
    hide EffectsOk, StateOk;
    forall t' | t' in s'.txns ensures OutcomeOk(t', s'.txns[t'], s'.history) {
      if t' in s.txns && s'.txns[t'] == s.txns[t'] {
        assert OutcomeOk(t', s.txns[t'], s.history);
        SlotStays(t', s.txns[t'], s.history, s'.history);
      }
    }
    forall i | 0 <= i < |s'.history| ensures EventOk(s', i) {
      if i < |s.history| { assert EventOk(s, i); }
    }
  }

  lemma TaskMoveKeeps(s: State, s': State, k: TaskId)
    requires OutInv(s) && TaskMoves(s, s', k)
    requires s'.history == s.history
             || exists e :: s'.history == s.history + [Standalone(e)]
    ensures OutInv(s')
  {
    hide OutInv;
    var t := s'.tasks[k].txn;
    if s'.txns != s.txns {
      TxnIsFine(s, t);
      MoveIsFine(t, s.txns[t], s'.txns[t], s.history);
      OutcomeStays(t, s'.txns[t], s.history, s'.history);
    }
    OneTxnKeeps(s, s', t);
  }

  lemma TxnIsFine(s: State, t: TxnId)
    requires OutInv(s) && t in s.txns
    ensures OutcomeOk(t, s.txns[t], s.history)
  {
  }

  lemma OutcomeStays(t: TxnId, txn: Txn, history: seq<Event>, history': seq<Event>)
    requires OutcomeOk(t, txn, history) && history <= history'
    ensures OutcomeOk(t, txn, history')
  {
  }

  lemma AllAtomsWait(s: State, t: TxnId)
    requires OwnInv(s) && t in s.txns && BeforeApply(s.txns[t].pc)
    ensures forall i | 0 <= i < |s.txns[t].groups| :: s.txns[t].groups[i].atoms != []
  {
    hide OwnedOk, WriterOk;
    assert GroupsOk(s, t);
    forall i | 0 <= i < |s.txns[t].groups| ensures s.txns[t].groups[i].atoms != [] {
      assert AtomsOk(s.txns[t].pc, i, s.txns[t].groups[i]);
    }
  }

  lemma WriteShape(s: State, k: TaskId)
    requires CanWrite(s, k) && s.tasks[k].txn != 0
    ensures var t, s' := s.tasks[k].txn, DoWrite(s, k);
            && t in s'.txns && s'.txns == s.txns[t := s'.txns[t]] && s'.history == s.history
            && var txn, txn' := s.txns[t], s'.txns[t];
               || txn' == txn.(state := DontCommit, failed := true)
               || txn' == txn.(groups := txn'.groups, log := txn'.log)
  {
    hide Execute, AddAtom;
  }

  lemma WriteStepOut(s: State, k: TaskId)
    requires CanWrite(s, k) && LockInv(s) && OwnInv(s) && OwnInv(DoWrite(s, k)) && OutInv(s) && !LateWrite(s, k)
    ensures OutInv(DoWrite(s, k))
  {
    hide LockInv, OwnInv, OutInv;
    var s', t := DoWrite(s, k), s.tasks[k].txn;
    if t == 0 {
      OneTxnKeeps(s, s', t);
    } else {
      TaskIsLocal(s, k);
      JoinedMeansEarly(s, k);
      WriteShape(s, k);
      AllAtomsWait(s, t);
      hide DoWrite;
      TxnIsFine(s, t);
      NotDecided(s, t);
      if s'.txns[t] != s.txns[t].(state := DontCommit, failed := true) { AllAtomsWait(s', t); }
      WriteIsFine(t, s.txns[t], s'.txns[t], s.history);
      OneTxnKeeps(s, s', t);
    }
  }

  lemma NotDecided(s: State, t: TxnId)
    requires OutInv(s) && t in s.txns && Undecided(s.txns[t].pc)
    ensures s.txns[t].state != CommittedState
  {
    TxnIsFine(s, t);
  }

  lemma ApplyStepOut(s: State, t: TxnId)
    requires LockInv(s) && OwnInv(s) && OutInv(s) && CanApplyAtom(s, t)
    requires var txn := s.txns[t]; txn.pc.i < |txn.groups| && txn.groups[txn.pc.i].atoms != []
    ensures OutInv(DoApplyAtom(s, t))
  {
    hide LockInv, OutInv;
    var s', txn := DoApplyAtom(s, t), s.txns[t];
    AtomAtCursor(s, t);
    hide OwnedOk, WriterOk;
    assert GroupsOk(s, t);
    forall j | 0 <= j < |txn.groups|
      ensures (j < txn.pc.i ==> txn.groups[j].atoms == []) && (j > txn.pc.i ==> txn.groups[j].atoms != [])
    {
      assert AtomsOk(txn.pc, j, txn.groups[j]);
    }
    hide OwnInv;
    TxnIsFine(s, t);
    NotDecided(s, t);
    assert txn.groups[txn.pc.i].atoms[1..] == [];
    AtomIsFine(t, txn, s'.txns[t], s.history);
    OneTxnKeeps(s, s', t);
  }

  lemma DecideStepOut(s: State, t: TxnId)
    requires OutInv(s) && CanDecide(s, t)
    ensures OutInv(DoDecide(s, t))
  {
    hide OutInv, OutcomeOk;
    TxnIsFine(s, t);
    NotDecided(s, t);
    DecisionIsFine(t, s.txns[t], s.history);
    OneTxnKeeps(s, DoDecide(s, t), t);
  }

  lemma SubmitStepOut(s: State, t: TxnId, commit: bool)
    requires LockInv(s) && OutInv(s) && CanSubmit(s, t)
    ensures OutInv(DoSubmit(s, t, commit))
  {
    hide OutInv, LockInv, OutcomeOk;
    TxnIsFine(s, t);
    CachedIsOpen(s, t);
    NotDecided(s, t);
    SubmitIsFine(t, s.txns[t], commit, s.history);
    OneTxnKeeps(s, DoSubmit(s, t, commit), t);
  }

  lemma LockObjectStepOut(s: State, t: TxnId)
    requires OwnInv(s) && OutInv(s) && CanLockObject(s, t) && s.txns[t].pc.i == |s.txns[t].groups|
    ensures OutInv(DoLockObject(s, t))
  {
    hide OutInv, OwnInv, OutcomeOk;
    TxnIsFine(s, t);
    NotDecided(s, t);
    AllAtomsWait(s, t);
    ChoiceIsFine(t, s.txns[t], s.history);
    OneTxnKeeps(s, DoLockObject(s, t), t);
  }

  lemma TxnMoveKeeps(s: State, s': State, t: TxnId, o: Oid)
    requires OutInv(s) && TxnMoves(s, s', t, o)
    requires t in s.txns ==>
               var pc := s.txns[t].pc; !pc.Deciding? && !pc.Open? && !(pc.Locking? && s'.txns[t].pc.Applying?)
    ensures OutInv(s')
  {
    hide OutInv, OutcomeOk;
    if t in s.txns {
      TxnIsFine(s, t);
      MoveIsFine(t, s.txns[t], s'.txns[t], s.history);
    } else {
      NewIsFine(t, s.history);
    }
    OneTxnKeeps(s, s', t);
  }

  lemma TaskStepHistory(s: State, step: Step, s': State)
    requires NextTask(s, step, s') && !step.Write?
    ensures TaskMoves(s, s', step.k)
    ensures s'.history == s.history || exists e :: s'.history == s.history + [Standalone(e)]
  {
    hide TaskMoves;
    TaskStepMoves(s, step, s');
    hide Try, Execute, Visible;
    if step.Commit? { CommitHistory(s, step.k); } else { OtherHistory(s, step, s'); }
  }

  lemma CommitHistory(s: State, k: TaskId)
    requires CanCommit(s, k)
    ensures DoCommit(s, k).history == s.history || exists e :: DoCommit(s, k).history == s.history + [Standalone(e)]
  {
  }

  lemma OtherHistory(s: State, step: Step, s': State)
    requires NextTask(s, step, s') && TaskMoves(s, s', step.k) && !step.Commit? && !step.Write?
    ensures s'.history == s.history
  {
    hide TaskMoves, Try, Execute, Visible;
  }

  lemma OutPreserved(s: State, step: Step, s': State)
    requires LockInv(s) && OwnInv(s) && OutInv(s) && Next(s, step, s') && InScope(s, step)
    ensures OutInv(s')
  {
    hide OwnInv, LockInv, OutInv, DoWrite, DoApplyAtom;
    OwnPreserved(s, step, s');
    if step.Write? {
      WriteStepOut(s, step.k);
    } else if NextTask(s, step, s') {
      TaskStepHistory(s, step, s');
      TaskMoveKeeps(s, s', step.k);
    } else {
      KeepsOutByTxn(s, step, s');
    }
  }

  lemma KeepsOutByTxn(s: State, step: Step, s': State)
    requires LockInv(s) && OwnInv(s) && OutInv(s) && NextTxn(s, step, s')
    ensures OutInv(s')
  {
    hide OwnInv, LockInv, OutInv, DoApplyAtom, DoLockObject, DoDecide, TxnMoves, TouchedBy;
    IsTxnStep(s, step, s');
    if step.ApplyAtom? && var txn := s.txns[step.t]; txn.pc.i < |txn.groups| && txn.groups[txn.pc.i].atoms != [] {
      ApplyStepOut(s, step.t);
    } else if step.Submit? {
      SubmitStepOut(s, step.t, step.commit);
    } else if step.Decide? {
      DecideStepOut(s, step.t);
    } else if step.LockObject? && s.txns[step.t].pc.i == |s.txns[step.t].groups| {
      LockObjectStepOut(s, step.t);
    } else {
      TxnStepMoves(s, step, s');
      PlainTxnStep(s, step, s');
      StillThere(s, s', step.t, TouchedBy(s, step.t));
      TxnMoveKeeps(s, s', step.t, TouchedBy(s, step.t));
    }
  }

  lemma StillThere(s: State, s': State, t: TxnId, o: Oid)
    requires TxnMoves(s, s', t, o)
    ensures t in s'.txns
  {
  }

  lemma PlainTxnStep(s: State, step: Step, s': State)
    requires NextTxn(s, step, s') && !step.Submit? && !step.Decide?
    requires step.LockObject? ==> s.txns[step.t].pc.i != |s.txns[step.t].groups|
    ensures step.t in s.txns && step.t in s'.txns ==>
              var pc := s.txns[step.t].pc;
              !pc.Deciding? && !pc.Open? && !(pc.Locking? && s'.txns[step.t].pc.Applying?)
  {
    hide Try;
  }

  lemma InitialOutInv(s: State)
    requires Initial(s)
    ensures OutInv(s)
  {
  }

  // ------------------------------------------------------------- what it comes to

  function EffectsOf(apply: bool, groups: seq<Group>): (r: seq<AtomEffect>)
    ensures |r| == |groups| && forall i | 0 <= i < |r| :: r[i] == EffectOn(apply, groups[i].oid)
  {
    seq(|groups|, i requires 0 <= i < |groups| => EffectOn(apply, groups[i].oid))
  }

  /** A finished transaction went one of two ways, for every object it ever wrote, once each and
      in the order of its list; and it is COMMITTED if and only if a commit was asked for and
      none of its writes failed. */
  lemma AllOrNothing(s: State, t: TxnId)
    requires LockInv(s) && OwnInv(s) && OutInv(s) && t in s.txns && !Undecided(s.txns[t].pc)
    ensures var txn := s.txns[t];
            && (txn.state == CommittedState || txn.state == RolledBack)
            && (txn.state == CommittedState <==> txn.wants && !txn.failed)
            && txn.effects == EffectsOf(txn.state == CommittedState, txn.groups)
            && DistinctGroups(txn.groups)
            && (forall e | e in txn.log :: exists g :: g in txn.groups && g.oid == e.oid)
            && (txn.state == CommittedState ==>
                  txn.slot < |s.history| && s.history[txn.slot] == Committed(t, txn.log))
  {
    hide ObjectOk, TaskOk, OwnedOk, WriterOk;
    var txn := s.txns[t];
    assert TxnOk(s, t) && GroupsOk(s, t);
    hide TxnOk;
    TxnIsFine(s, t);
    forall i | 0 <= i < |txn.groups| ensures txn.groups[i].atoms == [] {
      assert AtomsOk(txn.pc, i, txn.groups[i]);
    }
    assert |txn.groups| > 0 ==> txn.groups[|txn.groups| - 1].atoms == [];
    forall e | e in txn.log ensures exists g :: g in txn.groups && g.oid == e.oid {
      assert txn.groups[IndexOf(txn.groups, e.oid)] in txn.groups;
    }
  }

  /** The history holds each COMMITTED transaction exactly once and no other transaction. */
  lemma HistoryExact(s: State, t: TxnId, i: nat)
    requires OutInv(s) && i < |s.history|
    ensures (exists log :: s.history[i] == Committed(t, log))
            <==> t in s.txns && s.txns[t].state == CommittedState && s.txns[t].slot == i
    ensures t in s.txns && s.txns[t].state == CommittedState && s.txns[t].slot == i ==>
              s.history[i] == Committed(t, s.txns[t].log)
  {
    assert EventOk(s, i);
    if t in s.txns { TxnIsFine(s, t); }
  }
}
