/** Who owns what: a number belongs to transaction t exactly while its embedded atom sits in the
    atom list of t, once, under the single group of that object. */
module TxnOwnership {
  import opened Common
  import opened Calls
  import opened TxnMachine
  import opened TxnFrames
  import opened TxnLocking

  /** The atoms of group `i`: its object's own atom, until it is applied or reverted. */
  predicate AtomsOk(pc: TxnPc, i: nat, g: Group) {
    && (g.atoms == [] || g.atoms == [g.oid])
    && (BeforeApply(pc) || (pc.Applying? && i > pc.i) ==> g.atoms != [])
    && (!BeforeApply(pc) && (pc.Applying? ==> i < pc.i) ==> g.atoms == [])
  }

  predicate OwnedOk(s: State, o: Oid)
    requires o in s.objs
  {
    var t := s.objs[o].num.owner;
    t != 0 ==>
      && t in s.txns
      && var groups := s.txns[t].groups;
         IndexOf(groups, o) < |groups| && groups[IndexOf(groups, o)].atoms == [o]
  }

  predicate AtomOwned(s: State, t: TxnId, g: Group) {
    g.atoms != [] ==> g.oid in s.objs && s.objs[g.oid].num.owner == t
  }

  predicate GroupsOk(s: State, t: TxnId)
    requires t in s.txns
  {
    var txn := s.txns[t];
    && t != 0
    && (forall i | 0 <= i < |txn.groups| ::
          AtomsOk(txn.pc, i, txn.groups[i]) && AtomOwned(s, t, txn.groups[i]))
    && (forall e | e in txn.log :: IndexOf(txn.groups, e.oid) < |txn.groups|)
  }

  predicate WriterOk(s: State, k: TaskId)
    requires k in s.tasks
  {
    var task := s.tasks[k];
    Unpublished(task.pc) || task.pc.CommitDone? ==>
      task.oid in s.objs && s.objs[task.oid].num.owner == task.txn
  }

  predicate OwnInv(s: State) {
    && (forall o | o in s.objs :: OwnedOk(s, o))
    && (forall t | t in s.txns :: GroupsOk(s, t))
    && (forall k | k in s.tasks :: WriterOk(s, k))
  }

  // ------------------------------------------ steps that touch no number and no list

  lemma QuietObject(s: State, s': State, o: Oid)
    requires Quiet(s, s') && o in s.objs && OwnedOk(s, o)
    ensures OwnedOk(s', o)
  {
  }

  lemma QuietTxn(s: State, s': State, t: TxnId)
    requires Quiet(s, s') && t in s'.txns && (t in s.txns ==> GroupsOk(s, t))
    ensures GroupsOk(s', t)
  {
  }

  lemma QuietTask(s: State, s': State, k: TaskId)
    requires Quiet(s, s') && k in s'.tasks && (k in s.tasks ==> WriterOk(s, k))
    ensures WriterOk(s', k)
  {
  }

  lemma QuietKeeps(s: State, s': State)
    requires OwnInv(s) && Quiet(s, s')
    ensures OwnInv(s')
  {
    hide OwnedOk, GroupsOk, WriterOk;
    forall o | o in s'.objs ensures OwnedOk(s', o) { QuietObject(s, s', o); }
    forall t | t in s'.txns ensures GroupsOk(s', t) { QuietTxn(s, s', t); }
    forall k | k in s'.tasks ensures WriterOk(s', k) { QuietTask(s, s', k); }
  }

  // ------------------------------------------------------------- the write function

  /** Adding the atom of an object that has no group appends one new group. */
  lemma FreshGroup(groups: seq<Group>, o: Oid)
    requires IndexOf(groups, o) == |groups|
    ensures AddAtom(groups, o, o) == groups + [Group(o, [o])]
  {
    AddAtomGroups(groups, o, o);
  }

  lemma {:induction false} IndexAfterAppend(groups: seq<Group>, g: Group, o: Oid)
    ensures IndexOf(groups + [g], o)
            == if IndexOf(groups, o) < |groups| then IndexOf(groups, o)
               else if g.oid == o then |groups| else |groups| + 1
  {
    if groups == [] {
      assert groups + [g] == [g];
    } else if groups[0].oid != o {
      assert (groups + [g])[1..] == groups[1..] + [g];
      IndexAfterAppend(groups[1..], g, o);
    }
  }

  /** A write by a transaction that does not own the number finds no group of that object. */
  lemma NoGroupYet(s: State, t: TxnId, o: Oid)
    requires t in s.txns && GroupsOk(s, t) && o in s.objs && s.objs[o].num.owner != t
    requires BeforeApply(s.txns[t].pc)
    ensures IndexOf(s.txns[t].groups, o) == |s.txns[t].groups|
  {
  }

  /** A write that makes `t` the owner of `o` appends the group of `o`. */
  lemma NewOwnerGroups(s: State, k: TaskId)
    requires CanWrite(s, k) && s.tasks[k].txn != 0 && GroupsOk(s, s.tasks[k].txn)
    requires BeforeApply(s.txns[s.tasks[k].txn].pc) && DoWrite(s, k).tasks[k].pc == Written
    requires s.objs[s.tasks[k].oid].num.owner != s.tasks[k].txn
    ensures var o, t := s.tasks[k].oid, s.tasks[k].txn;
            DoWrite(s, k).txns[t].groups == s.txns[t].groups + [Group(o, [o])]
            && IndexOf(s.txns[t].groups, o) == |s.txns[t].groups|
  {
    NoGroupYet(s, s.tasks[k].txn, s.tasks[k].oid);
    FreshGroup(s.txns[s.tasks[k].txn].groups, s.tasks[k].oid);
  }

  /** The two ways the group list of `t` develops when `t` writes `o`. */
  lemma WriterGroups(t: TxnId, groups: seq<Group>, groups': seq<Group>, o: Oid, o': Oid)
    requires groups' == groups || (groups' == groups + [Group(o, [o])] && IndexOf(groups, o) == |groups|)
    ensures IndexOf(groups, o') < |groups| ==>
              && IndexOf(groups', o') == IndexOf(groups, o')
              && groups'[IndexOf(groups', o')] == groups[IndexOf(groups, o')]
    ensures groups' != groups ==> IndexOf(groups', o) == |groups|
  {
    IndexAfterAppend(groups, Group(o, [o]), o');
    IndexAfterAppend(groups, Group(o, [o]), o);
  }

  lemma WriteTxnGroups(s: State, k: TaskId)
    requires CanWrite(s, k) && s.tasks[k].txn != 0 && GroupsOk(s, s.tasks[k].txn) && OwnedOk(s, s.tasks[k].oid)
    requires BeforeApply(s.txns[s.tasks[k].txn].pc) && DoWrite(s, k).tasks[k].pc == Written
    ensures GroupsOk(DoWrite(s, k), s.tasks[k].txn)
    ensures OwnedOk(DoWrite(s, k), s.tasks[k].oid)
  {
    hide Execute, AddAtom, BeforeApply;
    var s', t, o := DoWrite(s, k), s.tasks[k].txn, s.tasks[k].oid;
    var groups, groups' := s.txns[t].groups, s'.txns[t].groups;
    if s.objs[o].num.owner != t { NewOwnerGroups(s, k); }
    forall i | 0 <= i < |groups'| ensures AtomsOk(s.txns[t].pc, i, groups'[i]) && AtomOwned(s', t, groups'[i]) {
      if i < |groups| { assert AtomsOk(s.txns[t].pc, i, groups[i]) && AtomOwned(s, t, groups[i]); }
    }
    forall e | e in s'.txns[t].log ensures IndexOf(groups', e.oid) < |groups'| {
      WriterGroups(t, groups, groups', o, e.oid);
    }
    WriterGroups(t, groups, groups', o, o);
  }

  lemma WriteKeeps(s: State, k: TaskId)
    requires OwnInv(s) && CanWrite(s, k)
    requires s.tasks[k].txn != 0 ==> BeforeApply(s.txns[s.tasks[k].txn].pc)
    requires forall k' | k' in s.tasks && k' != k && s.tasks[k'].oid == s.tasks[k].oid ::
               !Unpublished(s.tasks[k'].pc) && !s.tasks[k'].pc.CommitDone?
    ensures OwnInv(DoWrite(s, k))
  {
    var s', t, o := DoWrite(s, k), s.tasks[k].txn, s.tasks[k].oid;
    assert OwnedOk(s, o);
    if t != 0 && s'.tasks[k].pc == Written { WriteTxnGroups(s, k); }
    forall o' | o' in s'.objs ensures OwnedOk(s', o') {
      assert OwnedOk(s, o');
      if o' != o && s.objs[o'].num.owner == t && t != 0 { OwnedBeside(s, k, o'); }
    }
    forall t' | t' in s'.txns ensures GroupsOk(s', t') {
      assert GroupsOk(s, t');
      if t' != t || t == 0 { GroupsBeside(s, k, t'); }
    }
    forall k' | k' in s'.tasks ensures WriterOk(s', k') {
      assert WriterOk(s, k');
    }
  }

  lemma OwnedBeside(s: State, k: TaskId, o': Oid)
    requires CanWrite(s, k) && s.tasks[k].txn != 0 && o' in s.objs && o' != s.tasks[k].oid && OwnedOk(s, o')
    requires s.objs[o'].num.owner == s.tasks[k].txn
    requires GroupsOk(s, s.tasks[k].txn) && BeforeApply(s.txns[s.tasks[k].txn].pc)
    ensures OwnedOk(DoWrite(s, k), o')
  {
    hide Execute;
    var s', t, o := DoWrite(s, k), s.tasks[k].txn, s.tasks[k].oid;
    if s'.tasks[k].pc == Written && s.objs[o].num.owner != t { NewOwnerGroups(s, k); }
    WriterGroups(t, s.txns[t].groups, s'.txns[t].groups, o, o');
  }

  lemma GroupsBeside(s: State, k: TaskId, t': TxnId)
    requires CanWrite(s, k) && t' in s.txns && (t' != s.tasks[k].txn || s.tasks[k].txn == 0) && GroupsOk(s, t')
    ensures GroupsOk(DoWrite(s, k), t')
  {
  }

  /** No other task holds an unpublished write on the object that `k` may write. */
  lemma WriterIsAlone(s: State, k: TaskId, k': TaskId)
    requires LockInv(s) && TaskAt(s, k, WriteHeld) && k' in s.tasks && k' != k
    requires s.tasks[k'].oid == s.tasks[k].oid
    ensures !Unpublished(s.tasks[k'].pc) && !s.tasks[k'].pc.CommitDone?
  {
    hide TxnOk;
    assert TaskOk(s, k) && TaskOk(s, k') && ObjectOk(s, s.tasks[k].oid);
  }

  lemma WriteStepKeeps(s: State, k: TaskId)
    requires LockInv(s) && OwnInv(s) && CanWrite(s, k) && !LateWrite(s, k)
    ensures OwnInv(DoWrite(s, k))
  {
    hide LockInv, OwnInv, DoWrite;
    if s.tasks[k].txn != 0 {
      TaskIsLocal(s, k);
      JoinedMeansEarly(s, k);
    }
    forall k' | k' in s.tasks && k' != k && s.tasks[k'].oid == s.tasks[k].oid
      ensures !Unpublished(s.tasks[k'].pc) && !s.tasks[k'].pc.CommitDone?
    {
      WriterIsAlone(s, k, k');
    }
    WriteKeeps(s, k);
  }

  // ---------------------------------------------------------- applying and reverting

  /** What an atom is when its turn comes: the one embedded in the group's object, which `t`
      owns and has locked. */
  lemma AtomAtCursor(s: State, t: TxnId)
    requires LockInv(s) && OwnInv(s) && CanApplyAtom(s, t)
    requires var txn := s.txns[t]; txn.pc.i < |txn.groups| && txn.groups[txn.pc.i].atoms != []
    ensures var g := s.txns[t].groups[s.txns[t].pc.i];
            g.atoms == [g.oid] && s.objs[g.oid].num.owner == t && s.objs[g.oid].holder == TxnHolder(t)
  {
    hide ObjectOk, TaskOk, OwnedOk, WriterOk;
    var txn := s.txns[t];
    assert TxnOk(s, t) && GroupsOk(s, t);
    assert GroupOk(s.objs[txn.groups[txn.pc.i].oid], t, txn.pc, txn.pc.i, |txn.groups|);
    assert AtomsOk(txn.pc, txn.pc.i, txn.groups[txn.pc.i]) && AtomOwned(s, t, txn.groups[txn.pc.i]);
  }

  lemma NobodyWritesUnderLock(s: State, t: TxnId, k: TaskId)
    requires LockInv(s) && k in s.tasks && s.tasks[k].oid in s.objs && s.objs[s.tasks[k].oid].holder == TxnHolder(t)
    ensures !Unpublished(s.tasks[k].pc) && !s.tasks[k].pc.CommitDone?
  {
    hide TxnOk;
    assert TaskOk(s, k) && ObjectOk(s, s.tasks[k].oid);
  }

  predicate TakesAtom(s: State, t: TxnId) {
    && CanApplyAtom(s, t)
    && var txn := s.txns[t];
       txn.pc.i < |txn.groups| && var g := txn.groups[txn.pc.i]; g.atoms == [g.oid] && s.objs[g.oid].num.owner == t
  }

  lemma ApplyOwned(s: State, t: TxnId, o: Oid)
    requires TakesAtom(s, t) && t != 0 && o in s.objs && OwnedOk(s, o)
    ensures OwnedOk(DoApplyAtom(s, t), o)
  {
    SameIndex(s.txns[t].groups, DoApplyAtom(s, t).txns[t].groups, o);
  }

  lemma ApplyGroups(s: State, t: TxnId, t': TxnId)
    requires TakesAtom(s, t) && t' in s.txns && GroupsOk(s, t') && DistinctGroups(s.txns[t].groups)
    ensures GroupsOk(DoApplyAtom(s, t), t')
  {
    var s' := DoApplyAtom(s, t);
    var groups, groups' := s.txns[t'].groups, s'.txns[t'].groups;
    forall i | 0 <= i < |groups'|
      ensures AtomsOk(s'.txns[t'].pc, i, groups'[i]) && AtomOwned(s', t', groups'[i])
    {
      assert AtomsOk(s.txns[t'].pc, i, groups[i]) && AtomOwned(s, t', groups[i]);
    }
    forall e | e in s'.txns[t'].log ensures IndexOf(groups', e.oid) < |groups'| {
      SameIndex(groups, groups', e.oid);
    }
  }

  lemma ApplyStepKeeps(s: State, t: TxnId)
    requires LockInv(s) && OwnInv(s) && CanApplyAtom(s, t)
    requires var txn := s.txns[t]; txn.pc.i < |txn.groups| && txn.groups[txn.pc.i].atoms != []
    ensures OwnInv(DoApplyAtom(s, t))
  {
    hide OwnedOk, GroupsOk, WriterOk, ObjectOk, TaskOk, AtomsOk;
    var s' := DoApplyAtom(s, t);
    AtomAtCursor(s, t);
    assert TxnOk(s, t);
    hide TxnOk;
    forall o | o in s'.objs ensures OwnedOk(s', o) { ApplyOwned(s, t, o); }
    forall t' | t' in s'.txns ensures GroupsOk(s', t') { ApplyGroups(s, t, t'); }
    forall k | k in s'.tasks ensures WriterOk(s', k) {
      assert WriterOk(s, k);
      ApplyWriter(s, t, k);
    }
  }

  lemma ApplyWriter(s: State, t: TxnId, k: TaskId)
    requires LockInv(s) && TakesAtom(s, t) && k in s.tasks && WriterOk(s, k)
    requires s.objs[s.txns[t].groups[s.txns[t].pc.i].oid].holder == TxnHolder(t)
    ensures WriterOk(DoApplyAtom(s, t), k)
  {
    hide LockInv;
    if s.tasks[k].oid == s.txns[t].groups[s.txns[t].pc.i].oid { NobodyWritesUnderLock(s, t, k); }
  }

  // ------------------------------------------------------------------- every step

  lemma CachedIsOpen(s: State, t: TxnId)
    requires LockInv(s) && t in s.txns && t in s.cache
    ensures s.txns[t].pc.Open?
  {
    hide ObjectOk, TaskOk;
    assert TxnOk(s, t);
  }

  lemma OwnPreserved(s: State, step: Step, s': State)
    requires LockInv(s) && OwnInv(s) && Next(s, step, s') && InScope(s, step)
    ensures OwnInv(s')
  {
    hide OwnInv, Quiet, LockInv, DoWrite, DoApplyAtom, TaskMoves, TxnMoves, TouchedBy;
    if step.Write? {
      WriteStepKeeps(s, step.k);
    } else if NextTask(s, step, s') {
      TaskStepMoves(s, step, s');
      TaskMovesQuietly(s, s', step.k);
      QuietKeeps(s, s');
    } else {
      IsTxnStep(s, step, s');
      hide NextTxn;
      if step.ApplyAtom? && var txn := s.txns[step.t]; txn.pc.i < |txn.groups| && txn.groups[txn.pc.i].atoms != [] {
        ApplyStepIs(s, step, s');
        ApplyStepKeeps(s, step.t);
      } else {
        if step.Submit? { CachedIsOpen(s, step.t); }
        TxnStepMoves(s, step, s');
        TxnMovesQuietly(s, s', step.t, TouchedBy(s, step.t));
        QuietKeeps(s, s');
      }
    }
  }

  lemma ApplyStepIs(s: State, step: Step, s': State)
    requires NextTxn(s, step, s') && step.ApplyAtom?
    ensures CanApplyAtom(s, step.t) && s' == DoApplyAtom(s, step.t)
  {
  }

  lemma InitialOwnInv(s: State)
    requires Initial(s)
    ensures OwnInv(s)
  {
  }

  // ------------------------------------------------------------- what it comes to

  /** All atoms of a transaction, group after group. */
  function AtomsOf(groups: seq<Group>): seq<Oid> {
    if groups == [] then [] else AtomsOf(groups[..|groups| - 1]) + groups[|groups| - 1].atoms
  }

  lemma {:induction false} AtomCount(groups: seq<Group>, o: Oid)
    requires DistinctGroups(groups)
    requires forall g | g in groups :: g.atoms == [] || g.atoms == [g.oid]
    ensures multiset(AtomsOf(groups))[o]
            == if IndexOf(groups, o) < |groups| then |groups[IndexOf(groups, o)].atoms| else 0
  {
    if groups != [] {
      var init, last := groups[..|groups| - 1], groups[|groups| - 1];
      assert groups == init + [last];
      AtomCount(init, o);
      IndexAfterAppend(init, last, o);
      IndexUnique(groups, |groups| - 1);
    }
  }

  /** A number belongs to `t` exactly when its atom occurs in the lists of `t`, and then it
      occurs there once, under the only group of that object, and `t` is not finished. */
  lemma OwnershipExact(s: State, o: Oid, t: TxnId)
    requires LockInv(s) && OwnInv(s) && o in s.objs && t != 0
    ensures s.objs[o].num.owner == t ==> t in s.txns
    ensures t in s.txns ==>
              && multiset(AtomsOf(s.txns[t].groups))[o] == (if s.objs[o].num.owner == t then 1 else 0)
              && DistinctGroups(s.txns[t].groups)
    ensures s.objs[o].num.owner == t ==> BeforeApply(s.txns[t].pc) || s.txns[t].pc.Applying?
  {
    hide ObjectOk, TaskOk, WriterOk;
    assert OwnedOk(s, o);
    if t in s.txns {
      assert TxnOk(s, t) && GroupsOk(s, t);
      hide TxnOk, GroupsOk, OwnedOk;
      var groups := s.txns[t].groups;
      forall g | g in groups ensures g.atoms == [] || g.atoms == [g.oid] {
        var i :| 0 <= i < |groups| && groups[i] == g;
        assert AtomsOk(s.txns[t].pc, i, g);
      }
      AtomCount(groups, o);
      OwnerMatches(s, o, t);
    }
  }

  lemma OwnerMatches(s: State, o: Oid, t: TxnId)
    requires o in s.objs && t in s.txns && OwnedOk(s, o) && GroupsOk(s, t)
    ensures var groups, i := s.txns[t].groups, IndexOf(s.txns[t].groups, o);
            && (i < |groups| ==> |groups[i].atoms| == if s.objs[o].num.owner == t then 1 else 0)
            && (s.objs[o].num.owner == t ==> i < |groups| && !AfterApply(s.txns[t].pc))
  {
    var txn := s.txns[t];
    var i := IndexOf(txn.groups, o);
    if i < |txn.groups| {
      assert AtomsOk(txn.pc, i, txn.groups[i]) && AtomOwned(s, t, txn.groups[i]);
    }
  }
}
