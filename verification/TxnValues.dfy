/** What the numbers are worth: committed values replay the history, pending values add the
    owner's own calls, and every value handed out was right when it was handed out. */
module TxnValues {
  import opened Common
  import opened Calls
  import opened TxnMachine
  import opened TxnFrames
  import opened TxnLocking
  import opened TxnOwnership
  import opened TxnOutcome

  /** A standalone write of `o` waits for its commit. */
  predicate Waits(s: State, o: Oid, k: TaskId) {
    k in s.tasks && s.tasks[k].oid == o && s.tasks[k].txn == 0 && Unpublished(s.tasks[k].pc)
  }

  predicate Dirty(s: State, o: Oid) { exists k | k in s.tasks :: Waits(s, o, k) }

  /** `o` is locked by a transaction that has chosen to apply. */
  predicate Publishes(s: State, o: Oid)
    requires o in s.objs
  {
    var h := s.objs[o].holder;
    h.TxnHolder? && h.t in s.txns && Choice(s.txns[h.t].pc) == Some(true)
  }

  /** `w` is what the calls of transaction `t` make of the committed value. */
  predicate Pends(s: State, o: Oid, t: TxnId, w: int) {
    && t in s.txns
    && w == ValueAfter(ReplayValue(s.history, o), s.txns[t].log, o)
    && Faithful(ReplayValue(s.history, o), s.txns[t].log, o)
  }

  predicate NumberOk(s: State, o: Oid)
    requires o in s.objs
  {
    var num, holder := s.objs[o].num, s.objs[o].holder;
    && Faithful(0, Flat(s.history), o)
    && InRange(num.read) && InRange(num.write)
    && (holder.TxnHolder? ==> num.owner == 0 || num.owner == holder.t)
    && (if num.owner != 0 then
          num.read == ReplayValue(s.history, o) && Pends(s, o, num.owner, num.write)
        else if Publishes(s, o) then
          num.read == num.write && Pends(s, o, holder.t, num.write)
        else
          num.read == ReplayValue(s.history, o) && (num.write == num.read || Dirty(s, o)))
  }

  predicate ResultOk(s: State, k: TaskId)
    requires k in s.tasks
  {
    var task := s.tasks[k];
    Unpublished(task.pc) && task.txn == 0 ==>
      && task.oid in s.objs && task.kind.Writing?
      && Execute(task.kind.call, s.objs[task.oid].num.read) == Done(s.objs[task.oid].num.write, task.reply)
  }

  /** The value is the serial one at that moment, seen through the transaction's own calls. */
  predicate ObservationOk(history: seq<Event>, seen: Observation) {
    && seen.at <= |history|
    && seen.value == ValueAfter(ReplayValue(history[..seen.at], seen.oid), seen.own, seen.oid)
  }

  predicate ValInv(s: State) {
    && (forall o | o in s.objs :: NumberOk(s, o))
    && (forall e | e in Flat(s.history) :: e.oid in s.objs)
    && (forall k | k in s.tasks :: ResultOk(s, k))
    && (forall i | 0 <= i < |s.seen| :: ObservationOk(s.history, s.seen[i]))
  }

  // --------------------------------------------------- steps that leave values alone

  predicate ChoiceStays(pc: TxnPc, pc': TxnPc) {
    || Choice(pc') == Choice(pc)
    || (BeforeApply(pc) && pc'.Applying?)
    || (Choice(pc) == Some(false) && Choice(pc') == None)
  }

  predicate SameResult(s: State, s': State, k: TaskId)
    requires k in s.tasks && k in s'.tasks
  {
    s'.tasks[k] == s.tasks[k].(pc := s'.tasks[k].pc)
  }

  /** No number, no log and no event changed; a standalone write that waits goes on waiting. */
  predicate Still(s: State, s': State) {
    && s'.objs.Keys == s.objs.Keys && s'.history == s.history
    && (forall o | o in s.objs ::
          && s'.objs[o].num == s.objs[o].num
          && (s'.objs[o].holder.TxnHolder? ==>
                s'.objs[o].holder == s.objs[o].holder || s.objs[o].num.owner == s'.objs[o].holder.t))
    && (forall t | t in s.txns ::
          && t in s'.txns && s'.txns[t].log == s.txns[t].log && s'.txns[t].groups == s.txns[t].groups
          && ChoiceStays(s.txns[t].pc, s'.txns[t].pc))
    && (forall t | t in s'.txns && t !in s.txns :: s'.txns[t] == NewTxn)
    && (forall k | k in s'.tasks && Unpublished(s'.tasks[k].pc) ::
          k in s.tasks && Unpublished(s.tasks[k].pc) && SameResult(s, s', k))
    && (forall k | k in s.tasks && Unpublished(s.tasks[k].pc) && s.tasks[k].txn == 0 ::
          k in s'.tasks && Unpublished(s'.tasks[k].pc) && SameResult(s, s', k))
  }

  lemma StillDirty(s: State, s': State, o: Oid)
    requires Still(s, s') && Dirty(s, o)
    ensures Dirty(s', o)
  {
    var k :| k in s.tasks && Waits(s, o, k);
    assert Waits(s', o, k);
  }

  /** An object held by a transaction has a group there. */
  lemma HeldIsListed(s: State, t: TxnId, o: Oid)
    requires LockInv(s) && o in s.objs && s.objs[o].holder == TxnHolder(t)
    ensures t in s.txns && IndexOf(s.txns[t].groups, o) < |s.txns[t].groups|
  {
    hide TaskOk, TxnOk;
    assert ObjectOk(s, o);
  }

  lemma ListedIsHeld(s: State, t: TxnId, i: nat)
    requires LockInv(s) && t in s.txns && (Choice(s.txns[t].pc).Some? || s.txns[t].pc.Ending?)
    requires i < |s.txns[t].groups|
    ensures s.txns[t].groups[i].oid in s.objs && s.objs[s.txns[t].groups[i].oid].holder == TxnHolder(t)
  {
    hide TaskOk, ObjectOk;
    assert TxnOk(s, t);
    hide TxnOk;
    assert GroupOk(s.objs[s.txns[t].groups[i].oid], t, s.txns[t].pc, i, |s.txns[t].groups|);
  }

  /** Where a transaction has chosen, it holds every object of its list and no other. */
  lemma ChoiceHolds(s: State, t: TxnId, o: Oid)
    requires LockInv(s) && t in s.txns && o in s.objs && (Choice(s.txns[t].pc).Some? || s.txns[t].pc.Ending?)
    ensures s.objs[o].holder == TxnHolder(t) <==> IndexOf(s.txns[t].groups, o) < |s.txns[t].groups|
  {
    hide LockInv;
    if s.objs[o].holder == TxnHolder(t) { HeldIsListed(s, t, o); }
    var i := IndexOf(s.txns[t].groups, o);
    if i < |s.txns[t].groups| { ListedIsHeld(s, t, i); }
  }

  /** Before the write loop, a transaction owns the objects of its list. */
  lemma ListedIsOwned(s: State, t: TxnId, o: Oid)
    requires OwnInv(s) && t in s.txns && BeforeApply(s.txns[t].pc)
    requires IndexOf(s.txns[t].groups, o) < |s.txns[t].groups|
    ensures o in s.objs && s.objs[o].num.owner == t && t != 0
  {
    hide OwnedOk, WriterOk;
    var txn := s.txns[t];
    assert GroupsOk(s, t);
    var i := IndexOf(txn.groups, o);
    assert AtomsOk(txn.pc, i, txn.groups[i]) && AtomOwned(s, t, txn.groups[i]);
  }

  lemma StillPublishes(s: State, s': State, o: Oid)
    requires LockInv(s) && OwnInv(s) && LockInv(s') && Still(s, s') && o in s.objs && s.objs[o].num.owner == 0
    ensures Publishes(s', o) ==> Publishes(s, o) && s'.objs[o].holder == s.objs[o].holder
    ensures Publishes(s, o) ==> s'.objs[o].holder == s.objs[o].holder
    ensures Publishes(s, o) && !Publishes(s', o) ==> false
  {
    hide LockInv, OwnInv;
    if Publishes(s, o) {
      var t := s.objs[o].holder.t;
      HeldIsListed(s, t, o);
      ChoiceHolds(s', t, o);
    }
    if Publishes(s', o) && s'.objs[o].holder == s.objs[o].holder {
      var t := s'.objs[o].holder.t;
      HeldIsListed(s, t, o);
      if BeforeApply(s.txns[t].pc) { ListedIsOwned(s, t, o); }
    } else if Publishes(s', o) {
      assert s.objs[o].num.owner == s'.objs[o].holder.t;
      HolderIsNotZero(s', o);
    }
  }

  lemma HolderIsNotZero(s: State, o: Oid)
    requires LockInv(s) && o in s.objs && s.objs[o].holder.TxnHolder?
    ensures s.objs[o].holder.t != 0
  {
    hide TaskOk, TxnOk;
    assert ObjectOk(s, o);
  }

  lemma StillObject(s: State, s': State, o: Oid)
    requires LockInv(s) && OwnInv(s) && LockInv(s') && Still(s, s') && o in s.objs && NumberOk(s, o)
    ensures NumberOk(s', o)
  {
    hide LockInv, OwnInv, Faithful, ValueAfter;
    if s.objs[o].num.owner == 0 { StillPublishes(s, s', o); }
    if Dirty(s, o) { StillDirty(s, s', o); }
  }

  lemma StillKeeps(s: State, s': State)
    requires LockInv(s) && OwnInv(s) && LockInv(s') && ValInv(s) && Still(s, s')
    requires forall i | 0 <= i < |s'.seen| :: ObservationOk(s.history, s'.seen[i])
    ensures ValInv(s')
  {
    hide LockInv, OwnInv, NumberOk, Execute, ObservationOk;
    forall o | o in s'.objs ensures NumberOk(s', o) { StillObject(s, s', o); }
    forall k | k in s'.tasks ensures ResultOk(s', k) {
      if Unpublished(s'.tasks[k].pc) { assert ResultOk(s, k); }
    }
  }

  // ----------------------------------------------------------------- the write function

  /** What a task about to write finds: the committed value, or its own pending one. */
  lemma BeforeWrite(s: State, k: TaskId)
    requires LockInv(s) && OwnInv(s) && ValInv(s) && CanWrite(s, k) && !LateWrite(s, k)
    requires s.objs[s.tasks[k].oid].num.owner == 0 || s.objs[s.tasks[k].oid].num.owner == s.tasks[k].txn
    ensures var o, t := s.tasks[k].oid, s.tasks[k].txn;
            var R := ReplayValue(s.history, o);
            && s.objs[o].num.read == R && !Publishes(s, o)
            && (t == 0 ==> s.objs[o].num.owner == 0 && s.objs[o].num.write == R)
            && (t != 0 ==> Pends(s, o, t, s.objs[o].num.write))
  {
    hide LockInv, OwnInv, Faithful, ValueAfter, Execute;
    var o, t := s.tasks[k].oid, s.tasks[k].txn;
    assert NumberOk(s, o);
    WriterHolds(s, k);
    NotDirty(s, k);
    if t != 0 && s.objs[o].num.owner == 0 {
      TaskIsLocal(s, k);
      JoinedMeansEarly(s, k);
      NotOwnedUntouched(s, t, o);
    }
  }

  lemma WriterHolds(s: State, k: TaskId)
    requires LockInv(s) && TaskAt(s, k, WriteHeld)
    ensures s.objs[s.tasks[k].oid].holder == TaskHolder(k)
  {
    hide TxnOk, ObjectOk;
    assert TaskOk(s, k);
  }

  lemma NotDirty(s: State, k: TaskId)
    requires LockInv(s) && TaskAt(s, k, WriteHeld)
    ensures !Dirty(s, s.tasks[k].oid)
  {
    hide LockInv;
    if k' :| k' in s.tasks && Waits(s, s.tasks[k].oid, k') { WriterIsAlone(s, k, k'); }
  }

  lemma NotOwnedUntouched(s: State, t: TxnId, o: Oid)
    requires OwnInv(s) && t in s.txns && BeforeApply(s.txns[t].pc)
    requires o in s.objs && s.objs[o].num.owner != t
    ensures Pends(s, o, t, ReplayValue(s.history, o))
  {
    hide OwnInv;
    if IndexOf(s.txns[t].groups, o) < |s.txns[t].groups| { ListedIsOwned(s, t, o); }
    UnlistedUntouched(s, t, o);
  }

  lemma UnlistedUntouched(s: State, t: TxnId, o: Oid)
    requires OwnInv(s) && t in s.txns && IndexOf(s.txns[t].groups, o) == |s.txns[t].groups|
    ensures Pends(s, o, t, ReplayValue(s.history, o))
  {
    hide OwnedOk, WriterOk;
    assert GroupsOk(s, t);
    Untouched(ReplayValue(s.history, o), s.txns[t].log, o);
  }

  /** The write function succeeds: what it does to its object, its task and its transaction. */
  predicate Writes(s: State, s': State, k: TaskId) {
    && CanWrite(s, k)
    && var task, o, t := s.tasks[k], s.tasks[k].oid, s.tasks[k].txn;
       var num, outcome := s.objs[o].num, Execute(task.kind.call, s.objs[o].num.write);
       && (num.owner == 0 || num.owner == t) && outcome.Done? && InRange(outcome.value)
       && o in s'.objs && s'.objs == s.objs[o := s.objs[o].(num := Number(num.read, outcome.value, t))]
       && k in s'.tasks && s'.tasks == s.tasks[k := task.(pc := Written, reply := outcome.reply)]
       && s'.history == s.history && s'.seen == s.seen
       && (if t == 0 then s'.txns == s.txns
           else && t in s'.txns && s'.txns == s.txns[t := s'.txns[t]] && s'.txns[t].pc == s.txns[t].pc
                && s'.txns[t].log == s.txns[t].log + [Entry(o, task.kind.call, outcome.reply)])
  }

  lemma WriteEither(s: State, k: TaskId)
    requires CanWrite(s, k) && InScope(s, Write(k))
    ensures DoWrite(s, k).tasks[k].pc == Written ==> Writes(s, DoWrite(s, k), k)
    ensures DoWrite(s, k).tasks[k].pc != Written ==> Still(s, DoWrite(s, k))
  {
    hide Execute, AddAtom;
  }

  /** The object that was written. */
  lemma WrittenObject(s: State, s': State, k: TaskId)
    requires LockInv(s) && OwnInv(s) && ValInv(s) && Writes(s, s', k) && !LateWrite(s, k)
    ensures NumberOk(s', s.tasks[k].oid) && ResultOk(s', k)
  {
    hide LockInv, OwnInv, Faithful, ValueAfter, Execute;
    var o, t := s.tasks[k].oid, s.tasks[k].txn;
    assert NumberOk(s, o);
    BeforeWrite(s, k);
    WriterHolds(s, k);
    if t != 0 {
      LogSnoc(ReplayValue(s.history, o), s.txns[t].log,
              Entry(o, s.tasks[k].kind.call, s'.tasks[k].reply), o);
    } else {
      assert Waits(s', o, k);
    }
  }

  lemma WrittenBeside(s: State, s': State, k: TaskId, o: Oid)
    requires LockInv(s) && Writes(s, s', k) && o in s.objs && o != s.tasks[k].oid && NumberOk(s, o)
    requires s.tasks[k].txn != 0 ==> BeforeApply(s.txns[s.tasks[k].txn].pc)
    ensures NumberOk(s', o)
  {
    hide LockInv, Faithful, ValueAfter, Execute;
    var t := s.tasks[k].txn;
    if t != 0 && s.objs[o].num.owner == t {
      LogSnoc(ReplayValue(s.history, o), s.txns[t].log,
              Entry(s.tasks[k].oid, s.tasks[k].kind.call, s'.tasks[k].reply), o);
    }
    if Dirty(s, o) {
      var k' :| k' in s.tasks && Waits(s, o, k');
      assert Waits(s', o, k');
    }
  }

  lemma ResultBeside(s: State, s': State, k: TaskId, k': TaskId)
    requires LockInv(s) && Writes(s, s', k) && k' in s.tasks && k' != k && ResultOk(s, k')
    ensures ResultOk(s', k')
  {
    hide LockInv, Execute;
    if Unpublished(s.tasks[k'].pc) && s.tasks[k'].oid == s.tasks[k].oid { WriterIsAlone(s, k, k'); }
  }

  lemma WriteStepVal(s: State, k: TaskId)
    requires CanWrite(s, k) && LockInv(s) && OwnInv(s) && LockInv(DoWrite(s, k)) && ValInv(s)
    requires InScope(s, Write(k))
    ensures ValInv(DoWrite(s, k))
  {
    hide LockInv, OwnInv, NumberOk, ResultOk, ObservationOk;
    var s' := DoWrite(s, k);
    WriteEither(s, k);
    if s'.tasks[k].pc != Written {
      StillKeeps(s, s');
    } else {
      if s.tasks[k].txn != 0 {
        TaskIsLocal(s, k);
        JoinedMeansEarly(s, k);
      }
      WrittenObject(s, s', k);
      forall o | o in s'.objs ensures NumberOk(s', o) {
        if o != s.tasks[k].oid { WrittenBeside(s, s', k, o); }
      }
      forall k' | k' in s'.tasks ensures ResultOk(s', k') {
        if k' != k { ResultBeside(s, s', k, k'); }
      }
    }
  }

  // ----------------------------------------------------------------- the commit of a task

  /** Two tasks never hold a result on the same object. */
  lemma OneResult(s: State, k: TaskId, k': TaskId)
    requires LockInv(s) && k in s.tasks && k' in s.tasks && s.tasks[k].oid == s.tasks[k'].oid
    requires HoldsResult(s.tasks[k].pc) && HoldsResult(s.tasks[k'].pc)
    ensures k == k'
  {
    hide TxnOk;
    assert TaskOk(s, k) && TaskOk(s, k') && ObjectOk(s, s.tasks[k].oid);
  }

  lemma CommitterOwns(s: State, k: TaskId)
    requires LockInv(s) && OwnInv(s) && CanCommit(s, k)
    ensures s.objs[s.tasks[k].oid].num.owner == s.tasks[k].txn
    ensures s.objs[s.tasks[k].oid].holder == TaskHolder(k)
  {
    hide TxnOk, ObjectOk, OwnedOk, GroupsOk;
    assert TaskOk(s, k) && WriterOk(s, k);
  }

  /** Committing a write of a transaction publishes nothing. */
  lemma PendingCommit(s: State, k: TaskId)
    requires CanCommit(s, k) && s.tasks[k].txn != 0 && s.objs[s.tasks[k].oid].num.owner == s.tasks[k].txn
    ensures Still(s, DoCommit(s, k)) && DoCommit(s, k).seen == s.seen
  {
  }

  /** A standalone write becomes the next event. */
  lemma CommittedObject(s: State, k: TaskId, o: Oid)
    requires LockInv(s) && OwnInv(s) && ValInv(s) && CanCommit(s, k) && s.tasks[k].txn == 0 && o in s.objs
    ensures NumberOk(DoCommit(s, k), o)
  {
    hide LockInv, OwnInv, Faithful, ValueAfter, Execute;
    var e := Entry(s.tasks[k].oid, s.tasks[k].kind.call, s.tasks[k].reply);
    assert NumberOk(s, o) && NumberOk(s, e.oid);
    assert ResultOk(s, k);
    CommitterOwns(s, k);
    ReplaySnoc(s.history, Standalone(e), o);
    OneEntry(ReplayValue(s.history, o), e, o);
    if Dirty(s, o) && o != e.oid {
      var k' :| k' in s.tasks && Waits(s, o, k');
      assert Waits(DoCommit(s, k), o, k');
    }
  }

  lemma OneEntry(v: int, e: Entry, o: Oid)
    ensures ValueAfter(v, [e], o)
            == if e.oid == o && Execute(e.call, v).Done? then Execute(e.call, v).value else v
    ensures Faithful(v, [e], o)
            <==> (e.oid == o ==>
                    && Execute(e.call, v).Done? && Execute(e.call, v).reply == e.reply
                    && InRange(Execute(e.call, v).value))
  {
    assert [] + [e] == [e];
    LogSnoc(v, [], e, o);
  }

  lemma CommitResult(s: State, k: TaskId, k': TaskId)
    requires LockInv(s) && CanCommit(s, k) && k' in s.tasks && ResultOk(s, k')
    ensures ResultOk(DoCommit(s, k), k')
  {
    hide LockInv, Execute;
    if k' != k && Unpublished(s.tasks[k'].pc) && s.tasks[k'].oid == s.tasks[k].oid { OneResult(s, k, k'); }
  }

  lemma HistoryGrows(s: State, s': State, e: Event)
    requires ValInv(s) && s'.history == s.history + [e] && s'.seen == s.seen
    ensures forall i | 0 <= i < |s'.seen| :: ObservationOk(s'.history, s'.seen[i])
    ensures (forall x | x in EntriesOf(e) :: x.oid in s.objs) ==> forall x | x in Flat(s'.history) :: x.oid in s.objs
  {
    hide NumberOk, ResultOk;
    FlatSnoc(s.history, e);
    forall i | 0 <= i < |s'.seen| ensures ObservationOk(s'.history, s'.seen[i]) {
      assert ObservationOk(s.history, s.seen[i]);
      assert s'.history[..s.seen[i].at] == s.history[..s.seen[i].at];
    }
  }

  lemma CommitStepVal(s: State, k: TaskId)
    requires CanCommit(s, k) && LockInv(s) && OwnInv(s) && LockInv(DoCommit(s, k)) && ValInv(s)
    ensures ValInv(DoCommit(s, k))
  {
    hide LockInv, OwnInv, NumberOk, ResultOk, ObservationOk, Execute;
    var s' := DoCommit(s, k);
    if s.tasks[k].txn != 0 {
      CommitterOwns(s, k);
      PendingCommit(s, k);
      StillKeeps(s, s');
    } else {
      HistoryGrows(s, s', Standalone(Entry(s.tasks[k].oid, s.tasks[k].kind.call, s.tasks[k].reply)));
      forall o | o in s'.objs ensures NumberOk(s', o) { CommittedObject(s, k, o); }
      forall k' | k' in s'.tasks ensures ResultOk(s', k') { CommitResult(s, k, k'); }
    }
  }

  // ------------------------------------------------------ publishing and taking back

  lemma AppliedObject(s: State, t: TxnId, o: Oid)
    requires LockInv(s) && OwnInv(s) && CanApplyAtom(s, t) && o in s.objs && NumberOk(s, o)
    requires TakesAtom(s, t) && s.objs[s.txns[t].groups[s.txns[t].pc.i].oid].holder == TxnHolder(t)
    ensures NumberOk(DoApplyAtom(s, t), o)
  {
    hide LockInv, OwnInv, Faithful, ValueAfter;
    HolderIsNotZero(s, s.txns[t].groups[s.txns[t].pc.i].oid);
    if Dirty(s, o) {
      var k :| k in s.tasks && Waits(s, o, k);
      assert Waits(DoApplyAtom(s, t), o, k);
    }
  }

  lemma AppliedResult(s: State, t: TxnId, k: TaskId)
    requires LockInv(s) && CanApplyAtom(s, t) && k in s.tasks && ResultOk(s, k)
    requires TakesAtom(s, t) && s.objs[s.txns[t].groups[s.txns[t].pc.i].oid].holder == TxnHolder(t)
    ensures ResultOk(DoApplyAtom(s, t), k)
  {
    hide LockInv, Execute;
    if s.tasks[k].oid == s.txns[t].groups[s.txns[t].pc.i].oid { NobodyWritesUnderLock(s, t, k); }
  }

  lemma ApplyStepVal(s: State, t: TxnId)
    requires LockInv(s) && OwnInv(s) && CanApplyAtom(s, t) && ValInv(s)
    requires var txn := s.txns[t]; txn.pc.i < |txn.groups| && txn.groups[txn.pc.i].atoms != []
    ensures ValInv(DoApplyAtom(s, t))
  {
    hide LockInv, OwnInv, NumberOk, ResultOk, ObservationOk;
    var s' := DoApplyAtom(s, t);
    AtomAtCursor(s, t);
    forall o | o in s'.objs ensures NumberOk(s', o) { AppliedObject(s, t, o); }
    forall k | k in s'.tasks ensures ResultOk(s', k) { AppliedResult(s, t, k); }
  }

  /** The commit loop finds every number committed already. */
  lemma CommitLoopIdle(s: State, t: TxnId)
    requires LockInv(s) && OwnInv(s) && ValInv(s) && CanCommitObject(s, t) && s.txns[t].pc.i < |s.txns[t].groups|
    ensures var num := s.objs[s.txns[t].groups[s.txns[t].pc.i].oid].num; CommitNumber(num) == num
  {
    hide LockInv, OwnInv, Faithful, ValueAfter;
    var groups, i := s.txns[t].groups, s.txns[t].pc.i;
    var o := groups[i].oid;
    assert groups[i] in groups;
    ChoiceHolds(s, t, o);
    assert NumberOk(s, o);
    if k :| k in s.tasks && Waits(s, o, k) { NobodyWritesUnderLock(s, t, k); }
  }

  // ------------------------------------------------------------------- the decision

  /** At the decision to commit, the event of `t` turns its pending values into committed ones. */
  lemma DecidedObject(s: State, t: TxnId, o: Oid)
    requires LockInv(s) && OwnInv(s) && ValInv(s) && CanDecide(s, t) && o in s.objs
    requires s.txns[t].pc.apply && s.txns[t].state != DontCommit
    ensures NumberOk(DoDecide(s, t), o)
  {
    hide LockInv, OwnInv, Faithful, ValueAfter;
    var s', txn, R := DoDecide(s, t), s.txns[t], ReplayValue(s.history, o);
    assert NumberOk(s, o);
    ReplaySnoc(s.history, Committed(t, txn.log), o);
    ChoiceHolds(s, t, o);
    if IndexOf(txn.groups, o) < |txn.groups| {
      NotOwnedAfter(s, t, o);
    } else {
      UnlistedUntouched(s, t, o);
    }
    if Dirty(s, o) {
      var k :| k in s.tasks && Waits(s, o, k);
      assert Waits(s', o, k);
    }
  }

  lemma NotOwnedAfter(s: State, t: TxnId, o: Oid)
    requires LockInv(s) && OwnInv(s) && t in s.txns && o in s.objs && AfterApply(s.txns[t].pc)
    ensures s.objs[o].num.owner == t ==> t == 0
  {
    hide LockInv, OwnInv;
    if t != 0 { OwnershipExact(s, o, t); }
  }

  lemma LogOnObjects(s: State, t: TxnId)
    requires LockInv(s) && OwnInv(s) && t in s.txns
    ensures forall e | e in s.txns[t].log :: e.oid in s.objs
  {
    hide ObjectOk, TaskOk, OwnedOk, WriterOk;
    assert TxnOk(s, t) && GroupsOk(s, t);
  }

  lemma DecideStepVal(s: State, t: TxnId)
    requires CanDecide(s, t) && LockInv(s) && OwnInv(s) && LockInv(DoDecide(s, t)) && OutInv(s) && ValInv(s)
    ensures ValInv(DoDecide(s, t))
  {
    hide LockInv, OwnInv, OutInv, NumberOk, ResultOk, ObservationOk;
    var s' := DoDecide(s, t);
    if s.txns[t].pc.apply && s.txns[t].state != DontCommit {
      HistoryGrows(s, s', Committed(t, s.txns[t].log));
      LogOnObjects(s, t);
      forall o | o in s'.objs ensures NumberOk(s', o) { DecidedObject(s, t, o); }
      forall k | k in s'.tasks ensures ResultOk(s', k) { DecidedResult(s, t, k); }
    } else {
      TxnIsFine(s, t);
      StillKeeps(s, s');
    }
  }

  lemma DecidedResult(s: State, t: TxnId, k: TaskId)
    requires CanDecide(s, t) && k in s.tasks && ResultOk(s, k)
    ensures ResultOk(DoDecide(s, t), k)
  {
  }

  // ----------------------------------------------------------------------- reading

  lemma FinishedOwnsNothing(s: State, t: TxnId, o: Oid)
    requires OwnInv(s) && t in s.txns && s.txns[t].pc.Finished? && o in s.objs
    ensures s.objs[o].num.owner != t
  {
    hide WriterOk;
    assert GroupsOk(s, t) && OwnedOk(s, o);
  }

  /** A reader gets the committed value, or, reading through its own transaction, that value
      with the transaction's calls so far on top. */
  lemma ReaderSees(s: State, k: TaskId)
    requires LockInv(s) && OwnInv(s) && ValInv(s) && CanRead(s, k)
    ensures var o, t := s.tasks[k].oid, s.tasks[k].txn;
            Visible(s.objs[o].num, t) == ValueAfter(ReplayValue(s.history, o), OwnCalls(s, t), o)
  {
    hide LockInv, OwnInv, Faithful, ValueAfter;
    var o, t := s.tasks[k].oid, s.tasks[k].txn;
    assert NumberOk(s, o);
    ReaderKeepsOut(s, k);
    if t == 0 {
      NoTxnZero(s);
      Untouched(ReplayValue(s.history, o), [], o);
    } else {
      TaskIsLocal(s, k);
      JoinedMeansEarly(s, k);
      if s.txns[t].pc.Finished? {
        FinishedOwnsNothing(s, t, o);
        Untouched(ReplayValue(s.history, o), [], o);
      } else if s.objs[o].num.owner != t {
        NotOwnedUntouched(s, t, o);
      }
    }
  }

  lemma NoTxnZero(s: State)
    requires LockInv(s)
    ensures 0 !in s.txns
  {
    hide ObjectOk, TaskOk;
    assert forall t | t in s.txns :: TxnOk(s, t);
  }

  lemma ReaderKeepsOut(s: State, k: TaskId)
    requires LockInv(s) && TaskAt(s, k, ReadHeld)
    ensures !s.objs[s.tasks[k].oid].holder.TxnHolder?
  {
    hide TxnOk;
    assert TaskOk(s, k) && ObjectOk(s, s.tasks[k].oid);
  }

  lemma ReadStepVal(s: State, k: TaskId)
    requires CanRead(s, k) && LockInv(s) && OwnInv(s) && LockInv(DoRead(s, k)) && ValInv(s)
    ensures ValInv(DoRead(s, k))
  {
    hide LockInv, OwnInv, NumberOk, ResultOk, Visible;
    ReaderSees(s, k);
    var s' := DoRead(s, k);
    assert s.history[..|s.history|] == s.history;
    forall i | 0 <= i < |s'.seen| ensures ObservationOk(s.history, s'.seen[i]) {
      if i < |s.seen| { assert ObservationOk(s.history, s.seen[i]); }
    }
    StillKeeps(s, s');
  }

  // ------------------------------------------------------------------- every step

  lemma MovedTaskIsStill(s: State, s': State, k: TaskId)
    requires TaskMoves(s, s', k) && !PcOf(s, k, CommitHeld)
    ensures Still(s, s')
  {
  }

  /** No transaction is about to choose or to decide. */
  lemma MovedTxnIsStill(s: State, s': State, t: TxnId, o: Oid)
    requires TxnMoves(s, s', t, o) && NumberStays(s, s', o) && s'.history == s.history
    requires t in s.txns ==> ChoiceStays(s.txns[t].pc, s'.txns[t].pc)
    requires t in s.txns && BeforeApply(s'.txns[t].pc) && o in s'.objs && s'.objs[o].holder == TxnHolder(t) ==>
               s'.objs[o].num.owner == t
    ensures Still(s, s')
  {
    assert forall t' | t' in s'.txns && t' !in s.txns :: t' == t;
  }

  lemma NewlyHeldIsOwned(s: State, t: TxnId, o: Oid)
    requires LockInv(s) && OwnInv(s) && o in s.objs && s.objs[o].holder == TxnHolder(t)
    requires t in s.txns && BeforeApply(s.txns[t].pc)
    ensures s.objs[o].num.owner == t
  {
    hide LockInv, OwnInv;
    HeldIsListed(s, t, o);
    ListedIsOwned(s, t, o);
  }

  lemma PlainTxnStepVal(s: State, step: Step, s': State)
    requires NextTxn(s, step, s') && !step.Decide? && (step.Submit? ==> s.txns[step.t].pc.Open?)
    requires TxnMoves(s, s', step.t, TouchedBy(s, step.t))
    requires LockInv(s) && OwnInv(s) && LockInv(s') && OwnInv(s') && ValInv(s)
    requires NumberStays(s, s', TouchedBy(s, step.t))
    ensures ValInv(s')
  {
    var t, o := step.t, TouchedBy(s, step.t);
    ChoiceKept(s, step, s');
    hide NextTxn, LockInv, OwnInv, TouchedBy, SameStage, SameChoice;
    if t in s.txns && BeforeApply(s'.txns[t].pc) && o in s'.objs && s'.objs[o].holder == TxnHolder(t) {
      NewlyHeldIsOwned(s', t, o);
    }
    hide ValInv;
    MovedTxnIsStill(s, s', t, o);
    SeenKept(s);
    hide TxnMoves, Still;
    StillKeeps(s, s');
  }

  lemma SeenKept(s: State)
    requires ValInv(s)
    ensures forall i | 0 <= i < |s.seen| :: ObservationOk(s.history, s.seen[i])
  {
  }

  lemma ChoiceKept(s: State, step: Step, s': State)
    requires NextTxn(s, step, s') && !step.Decide? && (step.Submit? ==> s.txns[step.t].pc.Open?)
    requires TxnMoves(s, s', step.t, TouchedBy(s, step.t))
    ensures s'.history == s.history
    ensures step.t in s.txns ==> ChoiceStays(s.txns[step.t].pc, s'.txns[step.t].pc)
  {
    hide Try, TouchedBy, SameStage;
  }

  lemma CommitObjectStays(s: State, t: TxnId)
    requires LockInv(s) && OwnInv(s) && ValInv(s) && CanCommitObject(s, t)
    ensures NumberStays(s, DoCommitObject(s, t), TouchedBy(s, t))
  {
    hide LockInv, OwnInv, ValInv;
    if s.txns[t].pc.i < |s.txns[t].groups| { CommitLoopIdle(s, t); }
  }

  lemma OtherStepStays(s: State, step: Step, s': State)
    requires NextTxn(s, step, s') && !step.Decide? && !step.CommitObject?
    requires TxnMoves(s, s', step.t, TouchedBy(s, step.t))
    ensures NumberStays(s, s', TouchedBy(s, step.t))
  {
    hide Try, TouchedBy, SameStage;
  }

  lemma ValByTxn(s: State, step: Step, s': State)
    requires LockInv(s) && OwnInv(s) && OutInv(s) && ValInv(s) && NextTxn(s, step, s') && LockInv(s') && OwnInv(s')
    ensures ValInv(s')
  {
    hide LockInv, OwnInv, OutInv, ValInv, DoApplyAtom, DoDecide, TxnMoves, TouchedBy, NumberStays;
    IsTxnStep(s, step, s');
    if step.ApplyAtom? && var txn := s.txns[step.t]; txn.pc.i < |txn.groups| && txn.groups[txn.pc.i].atoms != [] {
      ApplyStepVal(s, step.t);
    } else if step.Decide? {
      DecideStepVal(s, step.t);
    } else {
      if step.Submit? { CachedIsOpen(s, step.t); }
      TxnStepMoves(s, step, s');
      if step.CommitObject? { CommitObjectStays(s, step.t); } else { OtherStepStays(s, step, s'); }
      PlainTxnStepVal(s, step, s');
    }
  }

  lemma ValByTask(s: State, step: Step, s': State)
    requires LockInv(s) && OwnInv(s) && ValInv(s) && NextTask(s, step, s') && InScope(s, step) && LockInv(s')
    ensures ValInv(s')
  {
    hide LockInv, OwnInv, ValInv, DoWrite, DoCommit, DoRead, TaskMoves, Still;
    if step.Write? {
      WriteStepVal(s, step.k);
    } else if step.Commit? {
      CommitStepVal(s, step.k);
    } else if step.Read? {
      ReadStepVal(s, step.k);
    } else {
      TaskStepMoves(s, step, s');
      QuietTaskPc(s, step, s');
      MovedTaskIsStill(s, s', step.k);
      SeenKept(s);
      StillKeeps(s, s');
    }
  }

  lemma QuietTaskPc(s: State, step: Step, s': State)
    requires NextTask(s, step, s') && !step.Write? && !step.Commit? && !step.Read?
    requires TaskMoves(s, s', step.k)
    ensures !PcOf(s, step.k, CommitHeld) && s'.seen == s.seen
  {
    hide TaskMoves;
    StartPc(s, step, s');
    SeenStays(s, s', step.k);
  }

  lemma StartPc(s: State, step: Step, s': State)
    requires NextTask(s, step, s') && !step.Write? && !step.Commit? && !step.Read?
    ensures !PcOf(s, step.k, CommitHeld) && !PcOf(s, step.k, ReadHeld)
  {
    hide DoIssue, DoLookUp, DoJoin, DoGate, DoGrabRead, DoGrabWrite, DoRead, DoReleaseRead, DoWrite,
         DoRaiseCommit, DoSwitch, DoReleaseFailed, DoReleaseUnswitched, DoGrabCommit, DoCommit, DoReleaseCommit,
         DoLeave;
  }

  lemma SeenStays(s: State, s': State, k: TaskId)
    requires TaskMoves(s, s', k) && !PcOf(s, k, ReadHeld)
    ensures s'.seen == s.seen
  {
  }

  lemma ValPreserved(s: State, step: Step, s': State)
    requires LockInv(s) && OwnInv(s) && OutInv(s) && ValInv(s) && Next(s, step, s') && InScope(s, step)
    ensures ValInv(s')
  {
    hide LockInv, OwnInv, OutInv, ValInv, NextTask, NextTxn, InScope;
    LockPreserved(s, step, s');
    OwnPreserved(s, step, s');
    if NextTask(s, step, s') { ValByTask(s, step, s'); } else { ValByTxn(s, step, s'); }
  }

  lemma InitialValInv(s: State)
    requires Initial(s)
    ensures ValInv(s)
  {
  }
}
