/** The loops of the commit task over the group list of a transaction, updating objects in place. */
module TxnLoops {
  import opened Calls
  import opened Numbers
  import M = TxnMachine
  import RwcSem

  // ------------------------------------------- the loops as steps of the protocol

  /** The list of `t` names every object once. */
  predicate Listed(s: M.State, t: TxnId) {
    && t in s.txns
    && (forall i | 0 <= i < |s.txns[t].groups| :: s.txns[t].groups[i].oid in s.objs)
    && (forall i, j | 0 <= i < j < |s.txns[t].groups| :: s.txns[t].groups[i].oid != s.txns[t].groups[j].oid)
  }

  /** `t` went to `pc`, and the objects of its first `k` groups changed in `pending`, LOCK and holder. */
  predicate Went(s: M.State, s': M.State, t: TxnId, pc: M.TxnPc, k: nat, pending: TxnId, raised: bool)
    requires Listed(s, t)
  {
    && t in s'.txns && s'.txns[t] == s.txns[t].(pc := pc) && s'.objs.Keys == s.objs.Keys
    && forall i | 0 <= i < |s.txns[t].groups| ::
         var o := s.txns[t].groups[i].oid;
         if i < k then
           && s'.objs[o].pending == pending
           && s'.objs[o].sem == if raised then s.objs[o].sem.(lock := true) else RwcSem.Free
         else s'.objs[o] == s.objs[o]
  }

  /** `k` turns of the first loop of the barrier that find nothing. */
  ghost function CheckSteps(s: M.State, t: TxnId, k: nat): (s': M.State)
    requires Listed(s, t) && s.txns[t].pc.Checking? && s.txns[t].pc.i == 0 && k <= |s.txns[t].groups|
    requires forall i | 0 <= i < k :: s.objs[s.txns[t].groups[i].oid].pending == 0
    ensures Went(s, s', t, M.Checking(s.txns[t].pc.commit, k), 0, 0, true)
  {
    if k == 0 then s else M.DoCheck(CheckSteps(s, t, k - 1), t)
  }

  /** `k` turns of the second loop. */
  ghost function MarkSteps(s: M.State, t: TxnId, k: nat): (s': M.State)
    requires Listed(s, t) && s.txns[t].pc.Marking? && s.txns[t].pc.i == 0 && k <= |s.txns[t].groups|
    ensures Went(s, s', t, M.Marking(s.txns[t].pc.commit, k), k, t, true)
  {
    hide Went, Listed;
    WentNowhere(s, t, t, true);
    if k == 0 then s else MarkNext(s, MarkSteps(s, t, k - 1), t, k - 1)
  }

  lemma WentNowhere(s: M.State, t: TxnId, pending: TxnId, raised: bool)
    requires Listed(s, t)
    ensures t in s.txns && Went(s, s, t, s.txns[t].pc, 0, pending, raised)
  {
  }

  ghost function MarkNext(s: M.State, before: M.State, t: TxnId, k: nat): (s': M.State)
    requires Listed(s, t) && s.txns[t].pc.Marking? && k < |s.txns[t].groups|
    requires Went(s, before, t, M.Marking(s.txns[t].pc.commit, k), k, t, true)
    ensures Went(s, s', t, M.Marking(s.txns[t].pc.commit, k + 1), k + 1, t, true)
  {
    hide M.DoMark, M.DoMarkLock, M.CanMark, M.CanMarkLock, Went, Listed;
    MarkOnce(s, before, t, k);
    M.DoMarkLock(M.DoMark(before, t), t)
  }

  lemma MarkOnce(s: M.State, before: M.State, t: TxnId, k: nat)
    requires Listed(s, t) && s.txns[t].pc.Marking? && k < |s.txns[t].groups|
    requires Went(s, before, t, M.Marking(s.txns[t].pc.commit, k), k, t, true)
    ensures M.CanMark(before, t) && M.CanMarkLock(M.DoMark(before, t), t)
    ensures Went(s, M.DoMarkLock(M.DoMark(before, t), t), t, M.Marking(s.txns[t].pc.commit, k + 1), k + 1, t, true)
  {
  }

  /** `k` turns of the release loop. */
  ghost function ReleaseSteps(s: M.State, t: TxnId, k: nat): (s': M.State)
    requires Listed(s, t) && s.txns[t].pc.Releasing? && s.txns[t].pc.i == 0 && k <= |s.txns[t].groups|
    ensures Went(s, s', t, M.Releasing(k), k, 0, false)
  {
    hide M.DoReleaseObject, M.DoClearPending, M.CanReleaseObject, M.CanClearPending, Went, Listed;
    WentNowhere(s, t, 0, false);
    if k == 0 then s else
      var before := ReleaseSteps(s, t, k - 1);
      ReleaseOnce(s, before, t, k - 1);
      M.DoClearPending(M.DoReleaseObject(before, t), t)
  }

  lemma ReleaseOnce(s: M.State, before: M.State, t: TxnId, k: nat)
    requires Listed(s, t) && k < |s.txns[t].groups| && Went(s, before, t, M.Releasing(k), k, 0, false)
    ensures M.CanReleaseObject(before, t) && M.CanClearPending(M.DoReleaseObject(before, t), t)
    ensures Went(s, M.DoClearPending(M.DoReleaseObject(before, t), t), t, M.Releasing(k + 1), k + 1, 0, false)
  {
  }

  /** The first marked object of the list, or its length. */
  ghost function FirstBusy(s: M.State, t: TxnId, k: nat): (i: nat)
    requires Listed(s, t) && k <= |s.txns[t].groups|
    ensures k <= i <= |s.txns[t].groups|
    ensures forall j | k <= j < i :: s.objs[s.txns[t].groups[j].oid].pending == 0
    ensures i < |s.txns[t].groups| ==> s.objs[s.txns[t].groups[i].oid].pending != 0
    decreases |s.txns[t].groups| - k
  {
    if k == |s.txns[t].groups| || s.objs[s.txns[t].groups[k].oid].pending != 0 then k else FirstBusy(s, t, k + 1)
  }

  /** The barrier: the turns of the first loop up to a marked object, or to the end and then all
      turns of the second. */
  ghost function BarrierSteps(s: M.State, t: TxnId): (s': M.State)
    requires Listed(s, t) && s.txns[t].pc.Checking? && s.txns[t].pc.i == 0
    ensures var n, c := |s.txns[t].groups|, s.txns[t].pc.commit;
            if FirstBusy(s, t, 0) < n then Went(s, s', t, M.BarrierBusy(c), 0, 0, true)
            else Went(s, s', t, M.Marking(c, n), n, t, true)
  {
    hide CheckSteps, MarkSteps;
    var i := FirstBusy(s, t, 0);
    var checked := M.DoCheck(CheckSteps(s, t, i), t);
    if i < |s.txns[t].groups| then checked else MarkSteps(checked, t, i)
  }

  /** An object as the commit task sees it. */
  class SObject {
    const number: Number
    var pending_txn_id: TxnId
    var sem: RwcSem.Word

    constructor (number: Number)
      ensures this.number == number && pending_txn_id == 0 && sem == RwcSem.Free
    {
      this.number, pending_txn_id, sem := number, 0, RwcSem.Free;
    }
  }

  /** group->object, with objects known by their ids. */
  class Store {
    const objects: map<Oid, SObject>

    constructor (objects: map<Oid, SObject>)
      ensures this.objects == objects
    {
      this.objects := objects;
    }

    /** Every group has its object, and no two have the same. */
    predicate Covers(groups: seq<GroupNode>) {
      && (forall i | 0 <= i < |groups| :: groups[i].oid in objects)
      && (forall i, j | 0 <= i < j < |groups| :: objects[groups[i].oid] != objects[groups[j].oid])
    }

    /** The objects of a list of groups. */
    function ObjectsOf(groups: seq<GroupNode>): set<SObject>
      requires Covers(groups)
    {
      set i | 0 <= i < |groups| :: objects[groups[i].oid]
    }

    predicate SameList(s: M.State, t: TxnId, groups: seq<GroupNode>) {
      && Listed(s, t) && |s.txns[t].groups| == |groups|
      && forall i | 0 <= i < |groups| :: s.txns[t].groups[i].oid == groups[i].oid
    }

    lemma AllReleased(s: M.State, s': M.State, t: TxnId, groups: seq<GroupNode>)
      requires Covers(groups) && SameList(s, t, groups)
      requires Went(s, s', t, M.Releasing(|groups|), |groups|, 0, false)
      requires forall i | 0 <= i < |groups| ::
                 objects[groups[i].oid].pending_txn_id == 0 && objects[groups[i].oid].sem == RwcSem.Free
      ensures Agrees(s', t, groups)
    {
    }

    /** The objects of the list are what the state of the protocol says of transaction `t`. */
    ghost predicate Agrees(s: M.State, t: TxnId, groups: seq<GroupNode>)
      requires Covers(groups)
      reads ObjectsOf(groups)
    {
      && SameList(s, t, groups)
      && forall i | 0 <= i < |groups| ::
           && s.objs[groups[i].oid].pending == objects[groups[i].oid].pending_txn_id
           && s.objs[groups[i].oid].sem == objects[groups[i].oid].sem
    }

    /** __txn_mgr_acquire_barrier: all objects are marked, or none is. What it does to the objects
        is what the turns of its loops do in the protocol. */
    method AcquireBarrier(txn: Transaction, ghost s: M.State) returns (is_available: bool)
      requires txn.Chained() && Covers(txn.groups)
      requires Agrees(s, txn.id, txn.groups) && s.txns[txn.id].pc.Checking? && s.txns[txn.id].pc.i == 0
      modifies ObjectsOf(txn.groups)
      ensures is_available <==> forall o | o in ObjectsOf(txn.groups) :: old(o.pending_txn_id) == 0
      ensures forall o | o in ObjectsOf(txn.groups) ::
                if is_available then o.pending_txn_id == txn.id && o.sem == old(o.sem).(lock := true)
                else o.pending_txn_id == old(o.pending_txn_id) && o.sem == old(o.sem)
      ensures Agrees(BarrierSteps(s, txn.id), txn.id, txn.groups)
      ensures is_available <==> !BarrierSteps(s, txn.id).txns[txn.id].pc.BarrierBusy?
    {
      hide BarrierSteps;
      ghost var groups := txn.groups;
      is_available := true;
      var group := txn.objects;
      ghost var i := 0;
      while group != null
        invariant 0 <= i <= |groups| && group == if i < |groups| then groups[i] else null
        invariant is_available && forall j | 0 <= j < i :: objects[groups[j].oid].pending_txn_id == 0
        decreases |groups| - i
      {
        assert i + 1 < |groups| ==> groups[i].next == groups[i + 1];
        if objects[group.oid].pending_txn_id != 0 {
          is_available := false;
          break;
        }
        group := group.next;
        i := i + 1;
      }
      if is_available {
        MarkAll(txn);
      }
    }

    /** The second loop of the barrier. */
    method MarkAll(txn: Transaction)
      requires txn.Chained() && Covers(txn.groups)
      modifies ObjectsOf(txn.groups)
      ensures forall o | o in ObjectsOf(txn.groups) :: o.pending_txn_id == txn.id && o.sem == old(o.sem).(lock := true)
    {
      ghost var groups := txn.groups;
      var group := txn.objects;
      ghost var i := 0;
      while group != null
        invariant 0 <= i <= |groups| && group == if i < |groups| then groups[i] else null
        invariant forall j | 0 <= j < i ::
                    var o := objects[groups[j].oid]; o.pending_txn_id == txn.id && o.sem == old(o.sem).(lock := true)
        invariant forall j | i <= j < |groups| :: var o := objects[groups[j].oid]; o.sem == old(o.sem)
        decreases |groups| - i
      {
        var target := objects[group.oid];
        target.pending_txn_id := txn.id;
        target.sem := target.sem.(lock := true);
        assert i + 1 < |groups| ==> groups[i].next == groups[i + 1];
        group := group.next;
        i := i + 1;
      }
    }

    /** __txn_mgr_release_locks, from where the transaction holds all its objects. */
    method ReleaseLocks(txn: Transaction, ghost s: M.State)
      requires txn.Chained() && Covers(txn.groups)
      requires forall o | o in ObjectsOf(txn.groups) :: o.pending_txn_id == txn.id
      requires Agrees(s, txn.id, txn.groups) && s.txns[txn.id].pc.Releasing? && s.txns[txn.id].pc.i == 0
      modifies ObjectsOf(txn.groups)
      ensures forall o | o in ObjectsOf(txn.groups) :: o.pending_txn_id == 0 && o.sem == RwcSem.Free
      ensures Agrees(ReleaseSteps(s, txn.id, |txn.groups|), txn.id, txn.groups)
    {
      hide ReleaseSteps, Agrees, Went, Listed;
      ghost var groups := txn.groups;
      TheList(s, txn.id, groups);
      var group := txn.objects;
      ghost var i := 0;
      while group != null
        invariant 0 <= i <= |groups| && group == if i < |groups| then groups[i] else null
        invariant forall j | 0 <= j < i ::
                    var o := objects[groups[j].oid]; o.pending_txn_id == 0 && o.sem == RwcSem.Free
        invariant forall j | i <= j < |groups| :: objects[groups[j].oid].pending_txn_id == txn.id
        decreases |groups| - i
      {
        var target := objects[group.oid];
        assert target.pending_txn_id == txn.id;
        target.sem := RwcSem.Free;
        target.pending_txn_id := 0;
        assert i + 1 < |groups| ==> groups[i].next == groups[i + 1];
        group := group.next;
        i := i + 1;
      }
      AllReleased(s, ReleaseSteps(s, txn.id, |groups|), txn.id, groups);
    }

    lemma TheList(s: M.State, t: TxnId, groups: seq<GroupNode>)
      requires Covers(groups) && Agrees(s, t, groups)
      ensures SameList(s, t, groups) && Listed(s, t) && |s.txns[t].groups| == |groups|
    {
    }

    function NumberOf(group: GroupNode): Number
      requires group.oid in objects
    {
      objects[group.oid].number
    }

    /** The atoms of a group are the one embedded in its number, and no two groups have the same
        number. */
    ghost predicate AtomsFit(groups: seq<GroupNode>)
      requires Covers(groups)
      reads (set g | g in groups)`atoms
    {
      && (forall i, a | 0 <= i < |groups| && a in groups[i].atoms :: a == NumberOf(groups[i]).atom)
      && (forall i, j | 0 <= i < j < |groups| :: NumberOf(groups[i]) != NumberOf(groups[j]))
    }

    lemma AtomsFitAt(groups: seq<GroupNode>, i: nat)
      requires Covers(groups) && AtomsFit(groups) && i < |groups|
      ensures forall a | a in groups[i].atoms :: a == NumberOf(groups[i]).atom
      ensures forall j | 0 <= j < |groups| && j != i :: NumberOf(groups[j]) != NumberOf(groups[i])
    {
    }

    /** The number after the turn of its group. */
    ghost function Settled(v: M.Number, atoms: seq<Atom>, apply: bool): M.Number {
      if atoms == [] then v else if apply then M.ApplyNumber(v) else M.RevertNumber(v)
    }

    /** The loops of TXN_SCHED_WRITE: every atom of every group, in order, and the lists are empty
        afterwards. */
    method WriteLoop(txn: Transaction, apply: bool)
      requires txn.Valid() && Covers(txn.groups) && AtomsFit(txn.groups)
      modifies (set g | g in txn.groups)`head, set i | 0 <= i < |txn.groups| :: NumberOf(txn.groups[i])
      ensures forall i | 0 <= i < |txn.groups| ::
                && txn.groups[i].head == null
                && NumberOf(txn.groups[i]).Value()
                   == Settled(old(NumberOf(txn.groups[i]).Value()), txn.groups[i].atoms, apply)
    {
      hide Settled, AtomsFit;
      ghost var groups := txn.groups;
      var group := txn.objects;
      ghost var i := 0;
      assert txn.Chained();
      while group != null
        invariant 0 <= i <= |groups| && group == if i < |groups| then groups[i] else null
        invariant forall j | 0 <= j < i ::
                    && groups[j].head == null
                    && NumberOf(groups[j]).Value() == Settled(old(NumberOf(groups[j]).Value()), groups[j].atoms, apply)
        invariant forall j | i <= j < |groups| ::
                    && NumberOf(groups[j]).Value() == old(NumberOf(groups[j]).Value())
                    && groups[j].head == old(groups[j].head)
        decreases |groups| - i
      {
        assert groups[i].ValidAtoms();
        AtomsFitAt(groups, i);
        WriteGroup(group, NumberOf(group), apply);
        assert i + 1 < |groups| ==> groups[i].next == groups[i + 1];
        group := group.next;
        i := i + 1;
      }
    }

    /** The inner loop: the atoms of one group. */
    method WriteGroup(group: GroupNode, number: Number, apply: bool)
      requires group.ValidAtoms() && forall a | a in group.atoms :: a == number.atom
      modifies group`head, number
      ensures group.head == null && number.Value() == Settled(old(number.Value()), group.atoms, apply)
    {
      ghost var atoms := group.atoms;
      var atom := group.head;
      ghost var k := 0;
      while atom != null
        invariant 0 <= k <= |atoms| && atom == (if k < |atoms| then atoms[k] else null) && group.head == atom
        invariant number.Value() == Settled(old(number.Value()), atoms[..k], apply)
        decreases |atoms| - k
      {
        assert k + 1 < |atoms| ==> atoms[k].next == atoms[k + 1];
        assert atoms[k] in group.atoms;
        var atom_next := atom.next;
        if apply {
          number.Apply(atom);
        } else {
          number.Revert(atom);
        }
        atom := atom_next;
        group.head := atom_next;
        k := k + 1;
      }
      assert atoms[..k] == atoms;
    }
  }
}
