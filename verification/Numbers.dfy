/** The number object of number.c and the atom lists of transaction.c, updated in place. */
module Numbers {
  import opened Calls
  import M = TxnMachine

  /** The atom embedded in a number. */
  class Atom {
    const id: Oid
    var next: Atom?

    constructor (id: Oid)
      ensures this.id == id && next == null
    {
      this.id := id;
      next := null;
    }
  }

  ghost function IdsOf(atoms: seq<Atom>): (ids: seq<Oid>)
    ensures |ids| == |atoms|
  {
    seq(|atoms|, i requires 0 <= i < |atoms| => atoms[i].id)
  }

  /** The atom list of one object in one transaction. */
  class GroupNode {
    const oid: Oid
    var next: GroupNode?
    var head: Atom?
    var tail: Atom?
    ghost var atoms: seq<Atom>

    constructor (oid: Oid)
      ensures this.oid == oid && next == null && head == null && tail == null && atoms == []
    {
      this.oid := oid;
      next, head, tail, atoms := null, null, null, [];
    }

    /** The list from `head` to `tail` is `atoms`, without repetition, ended by null. */
    ghost predicate ValidAtoms()
      reads this`head, this`tail, this`atoms, set a | a in atoms
    {
      && (if atoms == [] then head == null && tail == null else head == atoms[0] && tail == atoms[|atoms| - 1])
      && (forall i, j | 0 <= i < j == i + 1 < |atoms| :: atoms[i].next == atoms[j])
      && (atoms != [] ==> atoms[|atoms| - 1].next == null)
      && (forall i, j | 0 <= i < j < |atoms| :: atoms[i] != atoms[j])
    }

    /** The second half of raleighsl_transaction_add. */
    method Append(atom: Atom)
      requires ValidAtoms() && atom !in atoms
      modifies this`head, this`tail, this`atoms, atom`next, (set a | a in atoms)`next
      ensures ValidAtoms() && atoms == old(atoms) + [atom]
    {
      atom.next := null;
      if tail != null {
        tail.next := atom;
      } else {
        head := atom;
      }
      tail := atom;
      atoms := atoms + [atom];
    }
  }

  ghost function ListsOf(groups: seq<GroupNode>): (lists: seq<M.Group>)
    reads set g | g in groups
    ensures |lists| == |groups|
  {
    seq(|groups|, i requires 0 <= i < |groups| reads set g | g in groups
                  => M.Group(groups[i].oid, IdsOf(groups[i].atoms)))
  }

  class Transaction {
    const id: TxnId
    var objects: GroupNode?
    ghost var groups: seq<GroupNode>

    constructor (id: TxnId)
      ensures this.id == id && Valid() && Lists() == [] && Atoms() == {}
    {
      this.id := id;
      objects, groups := null, [];
    }

    ghost predicate Chained()
      reads this`objects, this`groups, set g | g in groups
    {
      && objects == (if groups == [] then null else groups[0])
      && (forall i, j | 0 <= i < j == i + 1 < |groups| :: groups[i].next == groups[j])
      && (groups != [] ==> groups[|groups| - 1].next == null)
      && (forall i, j | 0 <= i < j < |groups| :: groups[i] != groups[j])
    }

    /** Groups and atoms form proper lists: finite, without sharing, one group per object. */
    ghost predicate Valid()
      reads this`objects, this`groups, set g | g in groups, set g, a | g in groups && a in g.atoms :: a
    {
      && Chained()
      && (forall i | 0 <= i < |groups| :: groups[i].ValidAtoms())
      && (forall i, j | 0 <= i < j < |groups| :: groups[i].oid != groups[j].oid)
      && (forall g, h, a | g in groups && h in groups && a in g.atoms && a in h.atoms :: g == h)
    }

    /** Every atom that occurs in some group. */
    ghost function Atoms(): set<Atom>
      reads this`objects, this`groups, set g | g in groups
    {
      set g, a | g in groups && a in g.atoms :: a
    }

    ghost function Lists(): (r: seq<M.Group>)
      reads this`groups, set g | g in groups
      ensures |r| == |groups|
    {
      ListsOf(groups)
    }

    /** __txn_object_group_add: the group of the object, found or appended. */
    method GroupAdd(oid: Oid) returns (group: GroupNode, ghost k: nat)
      requires Valid()
      modifies this`objects, this`groups, (set g | g in groups)`next
      ensures Valid()
      ensures k < |groups| && groups[k] == group && group.oid == oid
      ensures groups == old(groups)
              || (groups == old(groups) + [group] && k == |old(groups)| && fresh(group) && group.atoms == [])
      ensures forall i | 0 <= i < |groups| && i != k :: groups[i].oid != oid
      ensures forall g | g in old(groups) :: g.atoms == old(g.atoms)
    {
      var current, prev := objects, objects;
      k := 0;
      while current != null && current.oid != oid
        invariant 0 <= k <= |groups|
        invariant current == if k < |groups| then groups[k] else null
        invariant prev == if k > 0 then groups[k - 1] else objects
        invariant forall j | 0 <= j < k :: groups[j].oid != oid
        decreases |groups| - k
      {
        assert Chained() && groups[k] == current && (k + 1 < |groups| ==> groups[k].next == groups[k + 1]);
        prev := current;
        current := current.next;
        k := k + 1;
      }
      if current != null {
        group := current;
      } else {
        group := new GroupNode(oid);
        Link(prev, group);
      }
    }

    method Link(prev: GroupNode?, group: GroupNode)
      requires Valid() && group !in groups && group.next == null && group.atoms == [] && group.ValidAtoms()
      requires prev == if groups == [] then null else groups[|groups| - 1]
      requires forall i | 0 <= i < |groups| :: groups[i].oid != group.oid
      modifies this`objects, this`groups, (set g | g in groups)`next
      ensures Valid() && groups == old(groups) + [group]
    {
      if prev == null {
        objects := group;
      } else {
        prev.next := group;
      }
      groups := groups + [group];
    }

    /** raleighsl_transaction_add: on the lists it is the AddAtom of the protocol. */
    method Add(oid: Oid, atom: Atom)
      requires Valid() && atom !in Atoms()
      modifies this`objects, this`groups, atom`next, set g | g in groups
      modifies (set g, a | g in groups && a in g.atoms :: a)`next
      ensures Valid() && Atoms() == old(Atoms()) + {atom}
      ensures Lists() == M.AddAtom(old(Lists()), oid, atom.id)
    {
      hide Valid, Chained;
      ghost var before := Lists();
      var group, k := GroupAdd(oid);
      ghost var middle := Lists();
      assert middle == before || middle == before + [M.Group(oid, [])];
      assert Atoms() == old(Atoms());
      AppendAt(group, k, atom);
      AddedAt(before, middle, Lists(), k, oid, atom.id);
    }

    method AppendAt(group: GroupNode, ghost k: nat, atom: Atom)
      requires Valid() && k < |groups| && groups[k] == group && atom !in Atoms()
      modifies group`head, group`tail, group`atoms, atom`next, (set a | a in group.atoms)`next
      ensures Valid() && groups == old(groups) && Atoms() == old(Atoms()) + {atom}
      ensures Lists() == old(Lists())[k := M.Group(group.oid, old(Lists()[k].atoms) + [atom.id])]
    {
      AppendOnly(group, k, atom);
      forall a ensures a in Atoms() <==> a in old(Atoms()) + {atom} {
        assert a in group.atoms <==> a in old(group.atoms) || a == atom;
      }
      assert IdsOf(group.atoms) == IdsOf(old(group.atoms)) + [atom.id];
    }

    method AppendOnly(group: GroupNode, ghost k: nat, atom: Atom)
      requires Valid() && k < |groups| && groups[k] == group && atom !in Atoms()
      modifies group`head, group`tail, group`atoms, atom`next, (set a | a in group.atoms)`next
      ensures Valid() && groups == old(groups) && group in groups
      ensures group.atoms == old(group.atoms) + [atom]
      ensures forall i | 0 <= i < |groups| && i != k :: groups[i] != group && groups[i].atoms == old(groups[i].atoms)
    {
      ghost var nodes := groups;
      assert group.ValidAtoms() && Chained();
      group.Append(atom);
      assert forall i | 0 <= i < |nodes| && i != k ::
          nodes[i].atoms == old(nodes[i].atoms) && nodes[i].next == old(nodes[i].next);
      assert Chained();
      forall i | 0 <= i < |nodes| ensures nodes[i].ValidAtoms() {
        if i != k { assert old(nodes[i].ValidAtoms()); }
      }
    }
  }

  lemma {:induction false} AddedAt(before: seq<M.Group>, middle: seq<M.Group>, after: seq<M.Group>, k: nat,
                                   oid: Oid, atom: Oid)
    requires k < |middle| && middle[k].oid == oid && forall j | 0 <= j < k :: middle[j].oid != oid
    requires middle == before || (middle == before + [M.Group(oid, [])] && k == |before|)
    requires after == middle[k := M.Group(oid, middle[k].atoms + [atom])]
    ensures after == M.AddAtom(before, oid, atom)
  {
    if k > 0 {
      assert after[1..] == middle[1..][k - 1 := M.Group(oid, middle[k].atoms + [atom])];
      assert after == [before[0]] + after[1..];
      assert middle[0] == before[0] && before[0].oid != oid;
      assert middle[1..] == before[1..] || middle[1..] == before[1..] + [M.Group(oid, [])];
      AddedAt(before[1..], middle[1..], after[1..], k - 1, oid, atom);
    } else if before != [] {
      assert after == [M.Group(oid, before[0].atoms + [atom])] + before[1..];
    } else {
      assert after == [M.Group(oid, [] + [atom])] && [] + [atom] == [atom];
    }
  }

  datatype Errno = Ok | TxnLocked | DataCas | DivModByZero

  function IdOf(txn: Transaction?): TxnId { if txn == null then 0 else txn.id }

  /** The call leaves the number as it is: another transaction owns it, or the call fails. */
  predicate Refuses(num: M.Number, t: TxnId, call: Call) {
    (num.owner > 0 && num.owner != t) || Execute(call, num.write).Refused?
  }

  /** What a call that takes effect stores is a 64-bit value. */
  predicate Fits(num: M.Number, t: TxnId, call: Call) {
    !Refuses(num, t, call) ==> InRange(Execute(call, num.write).value)
  }

  function NumberAfter(num: M.Number, t: TxnId, call: Call): M.Number {
    if Refuses(num, t, call) then num else M.Number(num.read, Execute(call, num.write).value, t)
  }

  function ListsAfter(num: M.Number, oid: Oid, t: TxnId, call: Call, lists: seq<M.Group>): seq<M.Group> {
    if Refuses(num, t, call) || num.owner == t then lists else M.AddAtom(lists, oid, oid)
  }

  /** The error a call ends with: a zero divisor is reported before a foreign owner, a foreign
      owner before a failed comparison. */
  function ErrnoOf(num: M.Number, t: TxnId, call: Call): Errno {
    if call.Div? && call.divisor == 0 then DivModByZero
    else if num.owner > 0 && num.owner != t then TxnLocked
    else if call.Cas? && call.expected != num.write then DataCas
    else Ok
  }

  /** The functions above are what the protocol does in its write step. */
  lemma WriteStepIs(s: M.State, k: M.TaskId)
    requires M.CanWrite(s, k)
    ensures var task, t := s.tasks[k], s.tasks[k].txn;
            var num, num' := s.objs[task.oid].num, M.DoWrite(s, k).objs[task.oid].num;
            && num' == NumberAfter(num, t, task.kind.call)
            && (M.DoWrite(s, k).tasks[k].pc == M.Written <==> ErrnoOf(num, t, task.kind.call) == Ok)
            && (t != 0 ==> M.DoWrite(s, k).txns[t].groups
                           == ListsAfter(num, task.oid, t, task.kind.call, s.txns[t].groups))
  {
  }

  /** A call that takes effect, for each kind of call. */
  lemma Taken(num: M.Number, t: TxnId, call: Call)
    requires num.owner == 0 || num.owner == t
    requires call.Cas? ==> call.expected == num.write
    requires call.Div? ==> call.divisor != 0
    ensures !Refuses(num, t, call)
    ensures Execute(call, num.write)
            == match call
               case Set(x) => Done(x, NoReply)
               case Cas(_, x) => Done(x, Current(num.write))
               case Add(n) => Done(num.write + n, Current(num.write + n))
               case Mul(n) => Done(num.write * n, Current(num.write * n))
               case Div(d) => Done(TruncDiv(num.write, d), DivMod(TruncMod(num.write, d), TruncDiv(num.write, d)))
  {
  }

  lemma NotTaken(num: M.Number, t: TxnId, call: Call)
    requires ErrnoOf(num, t, call) != Ok
    ensures Refuses(num, t, call)
  {
  }

  class Number {
    const oid: Oid
    const atom: Atom
    var read_value: int
    var write_value: int
    var txn_id: TxnId

    constructor (oid: Oid)
      ensures this.oid == oid && atom.id == oid && fresh(atom) && Value() == M.Number(0, 0, 0)
    {
      this.oid := oid;
      atom := new Atom(oid);
      read_value, write_value, txn_id := 0, 0, 0;
    }

    function Value(): M.Number
      reads this
    {
      M.Number(read_value, write_value, txn_id)
    }

    /** The number and the transaction agree on who owns whom. */
    ghost predicate Fit(txn: Transaction?)
      reads this, txn
      reads if txn == null then {} else set g | g in txn.groups
      reads if txn == null then {} else set g, a | g in txn.groups && a in g.atoms :: a
    {
      && atom.id == oid
      && (txn != null ==> txn.id > 0 && txn.Valid() && (txn_id == txn.id <==> atom in txn.Atoms()))
    }

    /** raleighsl_number_get. */
    method Get(txn: Transaction?) returns (current_value: int)
      requires txn != null ==> txn.id > 0
      ensures current_value == M.Visible(Value(), IdOf(txn))
    {
      if txn != null && txn_id == txn.id {
        return write_value;
      }
      return read_value;
    }

    /** The common end of a write that takes effect: the atom joins the transaction, then the
        value and the owner are stored. */
    method Accept(txn: Transaction?, value: int)
      requires Fit(txn) && (txn_id == 0 || txn_id == IdOf(txn))
      modifies this`write_value, this`txn_id
      modifies if txn == null then {} else {txn}
      modifies if txn == null then {} else set g | g in txn.groups
      modifies atom`next, (if txn == null then {} else set g, a | g in txn.groups && a in g.atoms :: a)`next
      ensures Fit(txn) && Value() == M.Number(old(read_value), value, IdOf(txn))
      ensures txn != null ==>
                txn.Lists() == if old(txn_id) == txn.id then old(txn.Lists()) else M.AddAtom(old(txn.Lists()), oid, oid)
    {
      hide Transaction.Valid, Transaction.Lists, Transaction.Atoms;
      if txn != null && txn_id != txn.id {
        txn.Add(oid, atom);
      }
      write_value := value;
      txn_id := IdOf(txn);
    }

    /** raleighsl_number_set. */
    method Set(txn: Transaction?, value: int) returns (errno: Errno)
      requires Fit(txn) && Fits(Value(), IdOf(txn), Call.Set(value))
      modifies this`write_value, this`txn_id
      modifies if txn == null then {} else {txn}
      modifies if txn == null then {} else set g | g in txn.groups
      modifies atom`next, (if txn == null then {} else set g, a | g in txn.groups && a in g.atoms :: a)`next
      ensures errno == ErrnoOf(old(Value()), IdOf(txn), Call.Set(value))
      ensures Value() == NumberAfter(old(Value()), IdOf(txn), Call.Set(value))
      ensures txn != null ==> txn.Lists() == ListsAfter(old(Value()), oid, txn.id, Call.Set(value), old(txn.Lists()))
      ensures Fit(txn)
    {
      hide Execute, Refuses, TruncDiv, TruncMod, Fits, Transaction.Valid, Transaction.Lists, Transaction.Atoms;
      var id := IdOf(txn);
      if txn_id > 0 && txn_id != id {
        NotTaken(Value(), id, Call.Set(value));
        return TxnLocked;
      }
      Taken(Value(), id, Call.Set(value));
      Accept(txn, value);
      return Ok;
    }

    /** raleighsl_number_cas. */
    method Cas(txn: Transaction?, old_value: int, new_value: int) returns (errno: Errno, current_value: int)
      requires Fit(txn) && Fits(Value(), IdOf(txn), Call.Cas(old_value, new_value))
      modifies this`write_value, this`txn_id
      modifies if txn == null then {} else {txn}
      modifies if txn == null then {} else set g | g in txn.groups
      modifies atom`next, (if txn == null then {} else set g, a | g in txn.groups && a in g.atoms :: a)`next
      ensures errno == ErrnoOf(old(Value()), IdOf(txn), Call.Cas(old_value, new_value))
      ensures Value() == NumberAfter(old(Value()), IdOf(txn), Call.Cas(old_value, new_value))
      ensures txn != null ==>
                txn.Lists() == ListsAfter(old(Value()), oid, txn.id, Call.Cas(old_value, new_value), old(txn.Lists()))
      ensures Fit(txn)
      ensures errno != TxnLocked ==> current_value == old(write_value)
    {
      hide Execute, Refuses, TruncDiv, TruncMod, Fits, Transaction.Valid, Transaction.Lists, Transaction.Atoms;
      var id := IdOf(txn);
      if txn_id > 0 && txn_id != id {
        NotTaken(Value(), id, Call.Cas(old_value, new_value));
        return TxnLocked, 0;
      }
      current_value := write_value;
      if write_value != old_value {
        NotTaken(Value(), id, Call.Cas(old_value, new_value));
        return DataCas, current_value;
      }
      Taken(Value(), id, Call.Cas(old_value, new_value));
      Accept(txn, new_value);
      return Ok, current_value;
    }

    /** raleighsl_number_add. */
    method Add(txn: Transaction?, value: int) returns (errno: Errno, current_value: int)
      requires Fit(txn) && Fits(Value(), IdOf(txn), Call.Add(value))
      modifies this`write_value, this`txn_id
      modifies if txn == null then {} else {txn}
      modifies if txn == null then {} else set g | g in txn.groups
      modifies atom`next, (if txn == null then {} else set g, a | g in txn.groups && a in g.atoms :: a)`next
      ensures errno == ErrnoOf(old(Value()), IdOf(txn), Call.Add(value))
      ensures Value() == NumberAfter(old(Value()), IdOf(txn), Call.Add(value))
      ensures txn != null ==> txn.Lists() == ListsAfter(old(Value()), oid, txn.id, Call.Add(value), old(txn.Lists()))
      ensures Fit(txn)
      ensures errno == Ok ==> Execute(Call.Add(value), old(write_value)).reply == Current(current_value)
    {
      hide Execute, Refuses, TruncDiv, TruncMod, Fits, Transaction.Valid, Transaction.Lists, Transaction.Atoms;
      var id := IdOf(txn);
      if txn_id > 0 && txn_id != id {
        NotTaken(Value(), id, Call.Add(value));
        return TxnLocked, 0;
      }
      Taken(Value(), id, Call.Add(value));
      Accept(txn, write_value + value);
      current_value := write_value;
      return Ok, current_value;
    }

    /** raleighsl_number_mul. */
    method Mul(txn: Transaction?, factor: int) returns (errno: Errno, current_value: int)
      requires Fit(txn) && Fits(Value(), IdOf(txn), Call.Mul(factor))
      modifies this`write_value, this`txn_id
      modifies if txn == null then {} else {txn}
      modifies if txn == null then {} else set g | g in txn.groups
      modifies atom`next, (if txn == null then {} else set g, a | g in txn.groups && a in g.atoms :: a)`next
      ensures errno == ErrnoOf(old(Value()), IdOf(txn), Call.Mul(factor))
      ensures Value() == NumberAfter(old(Value()), IdOf(txn), Call.Mul(factor))
      ensures txn != null ==> txn.Lists() == ListsAfter(old(Value()), oid, txn.id, Call.Mul(factor), old(txn.Lists()))
      ensures Fit(txn)
      ensures errno == Ok ==> Execute(Call.Mul(factor), old(write_value)).reply == Current(current_value)
    {
      hide Execute, Refuses, TruncDiv, TruncMod, Fits, Transaction.Valid, Transaction.Lists, Transaction.Atoms;
      var id := IdOf(txn);
      if txn_id > 0 && txn_id != id {
        NotTaken(Value(), id, Call.Mul(factor));
        return TxnLocked, 0;
      }
      Taken(Value(), id, Call.Mul(factor));
      Accept(txn, write_value * factor);
      current_value := write_value;
      return Ok, current_value;
    }

    /** raleighsl_number_div. */
    method Div(txn: Transaction?, divisor: int) returns (errno: Errno, mod: int, current_value: int)
      requires Fit(txn) && Fits(Value(), IdOf(txn), Call.Div(divisor))
      modifies this`write_value, this`txn_id
      modifies if txn == null then {} else {txn}
      modifies if txn == null then {} else set g | g in txn.groups
      modifies atom`next, (if txn == null then {} else set g, a | g in txn.groups && a in g.atoms :: a)`next
      ensures errno == ErrnoOf(old(Value()), IdOf(txn), Call.Div(divisor))
      ensures Value() == NumberAfter(old(Value()), IdOf(txn), Call.Div(divisor))
      ensures txn != null ==> txn.Lists() == ListsAfter(old(Value()), oid, txn.id, Call.Div(divisor), old(txn.Lists()))
      ensures Fit(txn)
      ensures errno == Ok ==> Execute(Call.Div(divisor), old(write_value)).reply == DivMod(mod, current_value)
    {
      hide Execute, Refuses, TruncDiv, TruncMod, Fits, Transaction.Valid, Transaction.Lists, Transaction.Atoms;
      if divisor == 0 {
        NotTaken(Value(), IdOf(txn), Call.Div(divisor));
        return DivModByZero, 0, 0;
      }
      var id := IdOf(txn);
      if txn_id > 0 && txn_id != id {
        NotTaken(Value(), id, Call.Div(divisor));
        return TxnLocked, 0, 0;
      }
      Taken(Value(), id, Call.Div(divisor));
      mod := TruncMod(write_value, divisor);
      Accept(txn, TruncDiv(write_value, divisor));
      current_value := write_value;
      return Ok, mod, current_value;
    }

    /** __object_apply, __object_revert and __object_commit. */
    method Apply(atom: Atom)
      requires atom == this.atom
      modifies this
      ensures Value() == M.ApplyNumber(old(Value()))
    {
      read_value := write_value;
      txn_id := 0;
    }

    method Revert(atom: Atom)
      requires atom == this.atom
      modifies this
      ensures Value() == M.RevertNumber(old(Value()))
    {
      write_value := read_value;
      txn_id := 0;
    }

    method Commit()
      modifies this
      ensures Value() == M.CommitNumber(old(Value()))
    {
      if txn_id == 0 {
        read_value := write_value;
      }
    }
  }
}
