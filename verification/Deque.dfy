/** The deque object: a list of committed entries, a pending list and a removal cursor for each
    end, and the transaction that owns each end. */
module DequeObject {
  import opened Common

  datatype Errno = Ok | TxnLocked | NoItems

  class Entry<V> {
    const value: V

    constructor (value: V)
      ensures this.value == value
    {
      this.value := value;
    }
  }

  /** A removal cursor: null, the list head (everything is removed), or an entry of the list. */
  datatype Cursor<V> = Null | ListHead | On(e: Entry<V>)

  ghost function Values<V>(list: seq<Entry<V>>): (r: seq<V>)
    ensures |r| == |list|
  {
    seq(|list|, i requires 0 <= i < |list| => list[i].value)
  }

  ghost predicate Distinct<V>(list: seq<Entry<V>>) { forall i, j | 0 <= i < j < |list| :: list[i] != list[j] }

  ghost predicate Apart<V>(a: seq<Entry<V>>, b: seq<Entry<V>>) { forall e | e in a :: e !in b }

  ghost predicate ProperLists<V>(pf: seq<Entry<V>>, d: seq<Entry<V>>, pb: seq<Entry<V>>) {
    Distinct(pf) && Distinct(d) && Distinct(pb) && Apart(pf, d) && Apart(pf, pb) && Apart(d, pb)
  }

  function Reverse<T>(s: seq<T>): (r: seq<T>)
    ensures |r| == |s| && forall i | 0 <= i < |s| :: r[i] == s[|s| - 1 - i]
  {
    if s == [] then [] else Reverse(s[1..]) + [s[0]]
  }

  // -------------------------------------------------------------- the abstract deque

  /** What one open transaction has pushed at one end, oldest first; owner 0 is none. */
  datatype Side<V> = Side(owner: nat, pushed: seq<V>)

  datatype Abstract<V> = Abstract(content: seq<V>, front: Side<V>, back: Side<V>)

  function SideOf<V>(a: Abstract<V>, front: bool): Side<V> { if front then a.front else a.back }

  function WithSide<V>(a: Abstract<V>, front: bool, side: Side<V>): Abstract<V> {
    if front then a.(front := side) else a.(back := side)
  }

  predicate Locked<V>(a: Abstract<V>, front: bool, txn: nat) {
    SideOf(a, front).owner > 0 && SideOf(a, front).owner != txn
  }

  /** The content after values were pushed at one end, one after the other. */
  function Pushed<V>(content: seq<V>, front: bool, values: seq<V>): seq<V> {
    if front then Reverse(values) + content else content + values
  }

  /** A push followed by its commit. */
  function PushStep<V>(a: Abstract<V>, front: bool, txn: nat, v: V): Abstract<V> {
    if Locked(a, front, txn) then a
    else if txn == 0 then a.(content := Pushed(a.content, front, [v]))
    else WithSide(a, front, Side(txn, SideOf(a, front).pushed + [v]))
  }

  /** A standalone pop followed by its commit. */
  function PopStep<V>(a: Abstract<V>, front: bool): (Abstract<V>, Option<V>) {
    if a.content == [] then (a, None)
    else if front then (a.(content := a.content[1..]), Some(a.content[0]))
    else (a.(content := a.content[..|a.content| - 1]), Some(a.content[|a.content| - 1]))
  }

  /** The end of the transaction that owns one end: apply or revert, then commit. */
  function EndStep<V>(a: Abstract<V>, front: bool, apply: bool): Abstract<V> {
    var closed := WithSide(a, front, Side(0, []));
    if apply then closed.(content := Pushed(a.content, front, SideOf(a, front).pushed)) else closed
  }

  /** What a commit of the object does to the abstract deque. */
  function CommitStep<V>(a: Abstract<V>): Abstract<V> {
    var c := if a.front.owner == 0 then Reverse(a.front.pushed) + a.content else a.content;
    var d := if a.back.owner == 0 then c + a.back.pushed else c;
    Abstract(d, if a.front.owner == 0 then Side(0, []) else a.front, if a.back.owner == 0 then Side(0, []) else a.back)
  }

  /** Nothing is pending at an end that no transaction owns. */
  predicate SettledAbs<V>(a: Abstract<V>) {
    (a.front.owner == 0 ==> a.front.pushed == []) && (a.back.owner == 0 ==> a.back.pushed == [])
  }

  lemma PushCommits<V>(a: Abstract<V>, front: bool, txn: nat, v: V)
    requires SettledAbs(a) && !Locked(a, front, txn)
    ensures CommitStep(WithSide(a, front, Side(txn, SideOf(a, front).pushed + [v]))) == PushStep(a, front, txn, v)
  {
    assert Reverse([v]) == [v] && [] + [v] == [v];
  }

  lemma LockedPush<V>(a: Abstract<V>, front: bool, txn: nat, v: V)
    requires Locked(a, front, txn)
    ensures PushStep(a, front, txn, v) == a
  {
  }

  lemma EndCommits<V>(a: Abstract<V>, front: bool, apply: bool)
    requires SettledAbs(a) && SideOf(a, front).owner != 0
    ensures CommitStep(WithSide(a, front, Side(0, if apply then SideOf(a, front).pushed else [])))
            == EndStep(a, front, apply)
  {
  }

  ghost function AbsOf<V>(pf: seq<Entry<V>>, d: seq<Entry<V>>, pb: seq<Entry<V>>, tf: nat, tb: nat): Abstract<V> {
    Abstract(Values(d), Side(tf, Values(Reverse(pf))), Side(tb, Values(Reverse(pb))))
  }

  /** The lists after one committed entry is gone, as an abstract deque. */
  lemma PopAbs<V>(pf: seq<Entry<V>>, d: seq<Entry<V>>, pb: seq<Entry<V>>, tf: nat, tb: nat, front: bool)
    requires d != []
    ensures PopStep(AbsOf(pf, d, pb, tf, tb), front)
            == if front then (AbsOf(pf, d[1..], pb, tf, tb), Some(d[0].value))
               else (AbsOf(pf, d[..|d| - 1], pb, tf, tb), Some(d[|d| - 1].value))
  {
    ValuesParts(d);
  }

  /** The lists after a commit with no cursor set, as an abstract deque. */
  lemma CommitAbs<V>(pf: seq<Entry<V>>, d: seq<Entry<V>>, pb: seq<Entry<V>>, tf: nat, tb: nat)
    ensures var c := if tf == 0 then pf + d else d;
            AbsOf(if tf == 0 then [] else pf, if tb == 0 then c + Reverse(pb) else c,
                  if tb == 0 then [] else pb, tf, tb)
            == CommitStep(AbsOf(pf, d, pb, tf, tb))
  {
    var c := if tf == 0 then pf + d else d;
    ValuesConcat(pf, d);
    ValuesConcat(c, Reverse(pb));
    assert Reverse(Values(Reverse(pf))) == Values(pf);
  }

  class Deque<V(0)> {
    var data: seq<Entry<V>>
    var pending_front: seq<Entry<V>>
    var pending_back: seq<Entry<V>>
    var removed_front: Cursor<V>
    var removed_back: Cursor<V>
    var txn_front: nat
    var txn_back: nat

    constructor ()
      ensures Settled() && Abs() == Abstract([], Side(0, []), Side(0, []))
    {
      data, pending_front, pending_back := [], [], [];
      removed_front, removed_back := Null, Null;
      txn_front, txn_back := 0, 0;
    }

    /** No entry is in two places. */
    ghost predicate Proper()
      reads this
    {
      ProperLists(pending_front, data, pending_back)
    }

    /** Every write has had its commit. */
    ghost predicate Settled()
      reads this
    {
      && Proper() && removed_front == Null && removed_back == Null
      && (txn_front == 0 ==> pending_front == []) && (txn_back == 0 ==> pending_back == [])
    }

    ghost function Abs(): Abstract<V>
      reads this
    {
      AbsOf(pending_front, data, pending_back, txn_front, txn_back)
    }

    // ---- the object's own functions

    /** raleighsl_deque_push. `joins` tells whether the atom of this end enters the transaction. */
    method Push(txn: nat, front: bool, v: V) returns (errno: Errno, joins: bool)
      requires Proper()
      modifies this`pending_front, this`pending_back, this`txn_front, this`txn_back
      ensures Proper()
      ensures errno == if old(Locked(Abs(), front, txn)) then TxnLocked else Ok
      ensures errno == TxnLocked ==> unchanged(this) && !joins
      ensures errno == Ok ==>
                && joins == (txn != 0 && txn != old(SideOf(Abs(), front).owner))
                && EndTurns(old(OwnerOf(front)), PushBy(txn), OwnerOf(front), joins)
                && Abs() == WithSide(old(Abs()), front, Side(txn, old(SideOf(Abs(), front).pushed) + [v]))
    {
      hide EndTurns;
      var owner := if front then txn_front else txn_back;
      if owner > 0 && owner != txn {
        return TxnLocked, false;
      }
      PushTurns(owner, txn);
      var entry := new Entry(v);
      joins := txn != 0 && txn != owner;
      if front {
        txn_front := txn;
        pending_front := [entry] + pending_front;
        assert Reverse(pending_front) == Reverse(old(pending_front)) + [entry];
      } else {
        txn_back := txn;
        pending_back := [entry] + pending_back;
        assert Reverse(pending_back) == Reverse(old(pending_back)) + [entry];
      }
      errno := Ok;
    }

    /** Every cursor that is on an entry is on one of the list. */
    ghost predicate CursorsIn()
      reads this
    {
      (removed_front.On? ==> removed_front.e in data) && (removed_back.On? ==> removed_back.e in data)
    }

    function Pending(front: bool): seq<Entry<V>>
      reads this
    {
      if front then pending_front else pending_back
    }

    function OwnerOf(front: bool): nat
      reads this
    {
      if front then txn_front else txn_back
    }

    function CursorOf(front: bool): Cursor<V>
      reads this
    {
      if front then removed_front else removed_back
    }

    /** The committed entries one end has not removed, the next one first. */
    ghost function Left(front: bool): seq<Entry<V>>
      reads this
    {
      if front then KeptFrom(data, removed_front) else Reverse(KeptUpTo(data, removed_back))
    }

    /** raleighsl_deque_pop, by any transaction or by none: the pending entries of this end, then the
        committed entries by way of the cursor, then the pending entries of the other end. */
    method Pop(txn: nat, front: bool) returns (errno: Errno, v: Option<V>)
      requires Proper() && CursorsIn()
      modifies this
      ensures Proper() && CursorsIn() && data == old(data) && OwnerOf(!front) == old(OwnerOf(!front))
      ensures CursorOf(!front) == old(CursorOf(!front))
      ensures old(Locked(Abs(), front, txn)) ==> errno == TxnLocked && v == None && unchanged(this)
      ensures !old(Locked(Abs(), front, txn)) ==>
                if old(Pending(front)) != [] then
                  && errno == Ok && v == Some(old(Pending(front))[0].value)
                  && Pending(front) == old(Pending(front))[1..] && Pending(!front) == old(Pending(!front))
                  && OwnerOf(front) == old(OwnerOf(front)) && CursorOf(front) == old(CursorOf(front))
                else if old(Left(front)) != [] then
                  && errno == Ok && v == Some(old(Left(front))[0].value) && Left(front) == old(Left(front))[1..]
                  && Pending(front) == [] && Pending(!front) == old(Pending(!front)) && OwnerOf(front) == txn
                  && EndTurns(old(OwnerOf(front)), PopBy(txn), OwnerOf(front), false)
                else if old(Pending(!front)) != [] then
                  && errno == Ok && v == Some(old(Pending(!front))[|old(Pending(!front))| - 1].value)
                  && Pending(!front) == old(Pending(!front))[..|old(Pending(!front))| - 1] && Pending(front) == []
                  && OwnerOf(front) == old(OwnerOf(front)) && CursorOf(front) == old(CursorOf(front))
                else errno == NoItems && v == None && unchanged(this)
    {
      hide ProperLists, KeptFrom, KeptUpTo, Reverse, Values, EndTurns;
      if OwnerOf(front) > 0 && OwnerOf(front) != txn {
        return TxnLocked, None;
      }
      PushTurns(OwnerOf(front), txn);
      PendingDrops(pending_front, data, pending_back);
      if Pending(front) != [] {
        v := Some(Pending(front)[0].value);
        if front { pending_front := pending_front[1..]; } else { pending_back := pending_back[1..]; }
        return Ok, v;
      }
      CursorLeft(data, removed_front, removed_back);
      if CursorOf(front) != ListHead && data != [] {
        v := TakeCommitted(front);
        if front { txn_front := txn; } else { txn_back := txn; }
        return Ok, v;
      }
      if Pending(!front) != [] {
        v := Some(Pending(!front)[|Pending(!front)| - 1].value);
        if front {
          pending_back := pending_back[..|pending_back| - 1];
        } else {
          pending_front := pending_front[..|pending_front| - 1];
        }
        return Ok, v;
      }
      return NoItems, None;
    }

    /** The committed entry the cursor of this end is at, and the cursor one further. */
    method TakeCommitted(front: bool) returns (v: Option<V>)
      requires Proper() && CursorsIn() && CursorOf(front) != ListHead && data != []
      modifies this`removed_front, this`removed_back
      ensures CursorsIn() && CursorOf(!front) == old(CursorOf(!front))
      ensures old(Left(front)) != [] && v == Some(old(Left(front))[0].value) && Left(front) == old(Left(front))[1..]
    {
      hide ProperLists, KeptFrom, KeptUpTo, Reverse;
      PendingDrops(pending_front, data, pending_back);
      CursorLeft(data, removed_front, removed_back);
      if front {
        if removed_front == Null { removed_front := On(data[0]); }
        v := Some(removed_front.e.value);
        NextLeft(data, removed_front.e);
        NextInList(data, removed_front.e);
        removed_front := NextOf(data, removed_front.e);
      } else {
        if removed_back == Null { removed_back := On(data[|data| - 1]); }
        v := Some(removed_back.e.value);
        PrevLeft(data, removed_back.e);
        PrevInList(data, removed_back.e);
        removed_back := PrevOf(data, removed_back.e);
      }
    }

    /** __object_apply on the atom of one end. */
    method Apply(front: bool)
      modifies this`txn_front, this`txn_back
      ensures txn_front == (if front then 0 else old(txn_front)) && txn_back == (if front then old(txn_back) else 0)
    {
      if front { txn_front := 0; } else { txn_back := 0; }
    }

    /** __object_revert on the atom of one end, whose transaction is found by comparing ids: where one
        transaction owns both ends it is the front that is cleared, for either atom. */
    method Revert(front: bool)
      requires Proper() && OwnerOf(front) > 0
      modifies this
      ensures Proper() && data == old(data)
      ensures OwnerOf(front) == 0 && OwnerOf(!front) == old(OwnerOf(!front))
      ensures var side := front || old(txn_front == txn_back);
              && Pending(side) == [] && CursorOf(side) == Null
              && Pending(!side) == old(Pending(!side)) && CursorOf(!side) == old(CursorOf(!side))
    {
      var txn_id := OwnerOf(front);
      if txn_id == txn_front {
        pending_front := [];
        removed_front := Null;
      } else if txn_id == txn_back {
        pending_back := [];
        removed_back := Null;
      }
      if front { txn_front := 0; } else { txn_back := 0; }
    }

    /** The front, which a commit clears first, has been removed past the cursor of the back. */
    ghost predicate Crossed()
      reads this
    {
      && txn_back == 0 && removed_back.On?
      && removed_back.e !in if txn_front == 0 then KeptFrom(data, removed_front) else data
    }

    /** __object_commit: what is removed at a free end goes, what is pending there moves in. If and
        only if the cursors have crossed, the loop for the back runs out of entries without coming to
        its cursor; the result is then false, and nothing is said of what the program does next. */
    method Commit() returns (ok: bool)
      requires Proper() && CursorsIn()
      modifies this`data, this`pending_front, this`pending_back, this`removed_front, this`removed_back
      ensures ok <==> !old(Crossed())
      ensures ok ==>
                && Proper()
                && removed_front == (if txn_front == 0 then Null else old(removed_front))
                && removed_back == (if txn_back == 0 then Null else old(removed_back))
                && pending_front == (if txn_front == 0 then [] else old(pending_front))
                && pending_back == (if txn_back == 0 then [] else old(pending_back))
                && data == var d := if txn_front == 0 then old(pending_front + KeptFrom(data, removed_front))
                                    else old(data);
                           if txn_back == 0 then KeptUpTo(d, old(removed_back)) + Reverse(old(pending_back)) else d
    {
      hide KeptFrom, KeptUpTo, Reverse;
      ok := true;
      if txn_front == 0 {
        CommitFront();
      }
      if txn_back == 0 {
        ok := CommitBack();
      }
    }

    /** The part of __object_commit for the front. */
    method CommitFront()
      requires Proper() && (removed_front.On? ==> removed_front.e in data)
      modifies this`data, this`pending_front, this`removed_front
      ensures Proper() && removed_front == Null && pending_front == []
      ensures data == old(pending_front) + KeptFrom(old(data), old(removed_front))
    {
      hide ProperLists, KeptFrom;
      NothingRemoved(data);
      if removed_front != Null {
        CutFront();
      }
      ghost var all, kept := pending_front, data;
      while pending_front != []
        invariant Proper() && pending_front <= all && removed_front == Null
        invariant data == all[|pending_front|..] + kept
        decreases |pending_front|
      {
        var n := |pending_front| - 1;
        MoveOne(all, n, kept);
        MoveToFront(pending_front, data, pending_back);
        data := [pending_front[n]] + data;
        pending_front := pending_front[..n];
      }
    }

    method CutFront()
      requires Proper() && removed_front != Null && (removed_front.On? ==> removed_front.e in data)
      modifies this`data, this`removed_front
      ensures Proper() && removed_front == Null && data == KeptFrom(old(data), old(removed_front))
    {
      hide ProperLists;
      while FrontOf(data) != removed_front
        invariant Proper() && removed_front == old(removed_front) && (removed_front.On? ==> removed_front.e in data)
        invariant KeptFrom(data, removed_front) == old(KeptFrom(data, removed_front))
        decreases |data|
      {
        KeptTail(data, removed_front);
        DropOne(pending_front, data, pending_back);
        data := data[1..];
      }
      KeptAll(data, removed_front);
      removed_front := Null;
    }

    /** The part of __object_commit for the back. */
    method CommitBack() returns (ok: bool)
      requires Proper()
      modifies this`data, this`pending_back, this`removed_back
      ensures ok <==> old(removed_back.On? ==> removed_back.e in data)
      ensures ok ==>
                && Proper() && removed_back == Null && pending_back == []
                && data == KeptUpTo(old(data), old(removed_back)) + Reverse(old(pending_back))
    {
      hide ProperLists;
      ok := true;
      if removed_back != Null {
        ok := CutBack();
        if !ok {
          return;
        }
      }
      ghost var all := data + Reverse(pending_back);
      while pending_back != []
        invariant Proper() && data + Reverse(pending_back) == all && removed_back == Null
        decreases |pending_back|
      {
        var n := |pending_back| - 1;
        ReverseLast(pending_back);
        assert data + Reverse(pending_back) == (data + [pending_back[n]]) + Reverse(pending_back[..n]);
        MoveToBack(pending_front, data, pending_back);
        data := data + [pending_back[n]];
        pending_back := pending_back[..n];
      }
      assert data + Reverse(pending_back) == data;
    }

    method CutBack() returns (ok: bool)
      requires Proper() && removed_back != Null
      modifies this`data, this`removed_back
      ensures ok <==> old(removed_back.On? ==> removed_back.e in data)
      ensures ok ==> Proper() && removed_back == Null && data == KeptUpTo(old(data), old(removed_back))
    {
      hide ProperLists;
      while BackOf(data) != removed_back
        invariant Proper() && removed_back == old(removed_back)
        invariant (removed_back.On? ==> removed_back.e in data) <==> old(removed_back.On? ==> removed_back.e in data)
        invariant KeptUpTo(data, removed_back) == old(KeptUpTo(data, removed_back))
        decreases |data|
      {
        if data == [] {
          return false;   // the list head, which is no entry
        }
        KeptInit(data, removed_back);
        DropOne(pending_front, data, pending_back);
        data := data[..|data| - 1];
      }
      KeptWhole(data, removed_back);
      removed_back := Null;
      return true;
    }

    // ---- a write and its commit

    /** A commit when no cursor is set. */
    method CommitPlain()
      requires Proper() && removed_front == Null && removed_back == Null
      modifies this`data, this`pending_front, this`pending_back, this`removed_front, this`removed_back
      ensures Settled() && Abs() == CommitStep(old(Abs()))
    {
      CommitAbs(pending_front, data, pending_back, txn_front, txn_back);
      hide ProperLists;
      var ok := Commit();
    }

    /** A push as the object scheduler runs it. */
    method PushAndCommit(txn: nat, front: bool, v: V) returns (errno: Errno)
      requires Settled()
      modifies this
      ensures Settled() && Abs() == PushStep(old(Abs()), front, txn, v)
      ensures errno == if old(Locked(Abs(), front, txn)) then TxnLocked else Ok
    {
      hide ProperLists, AbsOf, CommitStep, WithSide, SideOf, Locked;
      ghost var a := Abs();
      SettledIs();
      var joins;
      errno, joins := Push(txn, front, v);
      if errno == Ok {
        PushCommits(a, front, txn, v);
        CommitPlain();
      } else {
        LockedPush(a, front, txn, v);
      }
    }

    lemma SettledIs()
      requires Settled()
      ensures SettledAbs(Abs())
    {
    }

    /** A standalone pop as the object scheduler runs it. It is the pop of the abstract deque if
        and only if the deque has content or nothing is pending at the other end. */
    method PopAndCommit(front: bool) returns (errno: Errno, v: Option<V>)
      requires Settled()
      modifies this
      ensures Settled()
      ensures old(Locked(Abs(), front, 0)) ==> errno == TxnLocked && v == None && Abs() == old(Abs())
      ensures !old(Locked(Abs(), front, 0)) ==>
                && ((Abs(), v) == PopStep(old(Abs()), front)
                    <==> old(Abs().content != [] || SideOf(Abs(), !front).pushed == []))
                && (errno == Ok <==> v.Some?)
    {
      hide ProperLists, KeptFrom, KeptUpTo, Reverse;
      ghost var d, pf, pb := data, pending_front, pending_back;
      NothingRemoved(d);
      errno, v := Pop(0, front);
      if errno == Ok {
        CommitAfterPop(front, d);
        if d != [] { PopAbs(pf, d, pb, txn_front, txn_back, front); }
      }
    }

    /** The commit after a pop that took one committed entry, or a pending one of the other end. */
    method CommitAfterPop(front: bool, ghost d: seq<Entry<V>>)
      requires Proper() && CursorsIn() && data == d && OwnerOf(front) == 0 && Pending(front) == []
      requires OwnerOf(!front) == 0 ==> Pending(!front) == []
      requires CursorOf(!front) == Null
      requires if d == [] then CursorOf(front) == Null else Left(front) == (if front then d else Reverse(d))[1..]
      modifies this`data, this`pending_front, this`pending_back, this`removed_front, this`removed_back
      ensures Settled() && pending_front == old(pending_front) && pending_back == old(pending_back)
      ensures data == if d == [] then [] else if front then d[1..] else d[..|d| - 1]
    {
      hide ProperLists, KeptFrom, KeptUpTo, Reverse;
      NothingRemoved(d);
      if d != [] {
        NothingRemoved(d[1..]);
        if !front { ReverseTail(KeptUpTo(d, removed_back), d); }
      }
      assert [] + d == d && [] + KeptFrom(d, removed_front) == KeptFrom(d, removed_front);
      NoneReversed<V>();
      var ok := Commit();
    }

    /** The end of the transaction that owns one end and not the other. */
    method EndTransaction(front: bool, apply: bool)
      requires Settled() && OwnerOf(front) > 0 && txn_front != txn_back
      modifies this
      ensures Settled() && Abs() == EndStep(old(Abs()), front, apply)
    {
      ghost var a := Abs();
      SettledIs();
      EndCommits(a, front, apply);
      if apply { Apply(front); } else { Revert(front); }
      hide ProperLists;
      CommitPlain();
    }

    /** The end of a transaction that owns both ends, its atoms in either order. It is the end of the
        abstract deque at both ends if and only if it commits, or has its front atom first, or has
        pushed nothing at the back: a rollback that begins with the back atom clears the front twice. */
    method EndBoth(front_first: bool, apply: bool)
      requires Settled() && txn_front == txn_back > 0
      modifies this
      ensures Settled()
      ensures Abs() == EndStep(EndStep(old(Abs()), true, apply), false, apply)
              <==> apply || front_first || old(Abs()).back.pushed == []
      ensures !apply && !front_first ==>
                Abs() == Abstract(old(Abs().content + Abs().back.pushed), Side(0, []), Side(0, []))
    {
      ghost var a := Abs();
      if apply {
        Apply(front_first);
        Apply(!front_first);
      } else {
        Revert(front_first);
        Revert(!front_first);
      }
      hide ProperLists;
      CommitPlain();
      assert a.back.pushed != [] ==> |a.content + a.back.pushed| > |a.content|;
      assert a.content + [] == a.content && [] + a.content == a.content;
    }
  }

  // ------------------------------------------------------------- whole transactions

  /** A push as it was issued: by a transaction, or standalone with txn 0. */
  datatype Command<V> = Command(txn: nat, front: bool, v: V)

  function RunAll<V>(a: Abstract<V>, commands: seq<Command<V>>): Abstract<V> {
    if commands == [] then a
    else
      var last := commands[|commands| - 1];
      PushStep(RunAll(a, commands[..|commands| - 1]), last.front, last.txn, last.v)
  }

  /** The values pushed by one issuer at one end, in order. */
  function ValuesOf<V>(commands: seq<Command<V>>, txn: nat, front: bool): seq<V> {
    if commands == [] then []
    else
      var last := commands[|commands| - 1];
      ValuesOf(commands[..|commands| - 1], txn, front) + if last.txn == txn && last.front == front then [last.v] else []
  }

  /** Transaction `t` has pushed `own` at one end, and `others` were pushed at the other. */
  function Opened<V>(a: Abstract<V>, t: nat, front: bool, own: seq<V>, others: seq<V>): Abstract<V> {
    WithSide(a, front, Side(t, own)).(content := Pushed(a.content, !front, others))
  }

  lemma OpenStep<V>(a: Abstract<V>, t: nat, front: bool, own: seq<V>, others: seq<V>, c: Command<V>)
    requires t != 0 && SideOf(a, !front) == Side(0, []) && (c.front != front ==> c.txn == 0)
    ensures PushStep(Opened(a, t, front, own, others), c.front, c.txn, c.v)
            == Opened(a, t, front, if c.front == front && c.txn == t then own + [c.v] else own,
                      if c.front != front then others + [c.v] else others)
  {
    if c.front != front { PushedMore(a.content, !front, others, c.v); }
  }

  /** While transaction `t` has an end open, its pushes collect there, standalone pushes at the
      other end take effect at once, and pushes of anybody else at its end are refused. */
  lemma {:induction false} WhileOpen<V>(a: Abstract<V>, commands: seq<Command<V>>, t: nat, front: bool)
    requires t != 0 && commands != [] && commands[0].txn == t && commands[0].front == front
    requires SideOf(a, front) == Side(0, []) && SideOf(a, !front) == Side(0, [])
    requires forall c | c in commands && c.front != front :: c.txn == 0
    ensures RunAll(a, commands)
            == Opened(a, t, front, ValuesOf(commands, t, front), ValuesOf(commands, 0, !front))
    decreases |commands|
  {
    var init, last := commands[..|commands| - 1], commands[|commands| - 1];
    assert last in commands;
    if init == [] {
      assert RunAll(a, init) == a && ValuesOf(init, t, front) == [] && ValuesOf(init, 0, !front) == [];
      assert Pushed(a.content, !front, []) == a.content && [] + [last.v] == [last.v];
    } else {
      hide PushStep, Opened;
      forall c | c in init && c.front != front ensures c.txn == 0 { assert c in commands; }
      WhileOpen(a, init, t, front);
      OpenStep(a, t, front, ValuesOf(init, t, front), ValuesOf(init, 0, !front), last);
    }
  }

  lemma PushedMore<V>(content: seq<V>, front: bool, values: seq<V>, v: V)
    ensures Pushed(Pushed(content, front, values), front, [v]) == Pushed(content, front, values + [v])
  {
    if front { ReverseAppend(values, v); }
  }

  lemma ReverseAppend<V>(values: seq<V>, v: V)
    ensures Reverse(values + [v]) == Reverse([v]) + Reverse(values)
  {
  }

  /** A transaction that only pushes, at one end: on commit its values stand at that end in push
      order, as if pushed one after the other; on rollback nothing of it is left; either way the
      standalone pushes at the other end are where they belong. */
  lemma PushOnlyTransaction<V>(a: Abstract<V>, commands: seq<Command<V>>, t: nat, front: bool, apply: bool)
    requires t != 0 && commands != [] && commands[0].txn == t && commands[0].front == front
    requires SideOf(a, front) == Side(0, []) && SideOf(a, !front) == Side(0, [])
    requires forall c | c in commands && c.front != front :: c.txn == 0
    ensures var others := Pushed(a.content, !front, ValuesOf(commands, 0, !front));
            EndStep(RunAll(a, commands), front, apply)
            == a.(content := if apply then Pushed(others, front, ValuesOf(commands, t, front)) else others)
  {
    WhileOpen(a, commands, t, front);
  }

  // ------------------------------------------------------------------ who frees an end

  /** The owner of one end, and whether the atom of the end is in the list of that transaction. */
  datatype End = End(owner: nat, listed: bool)

  /** A push that succeeds, a pop that takes a committed entry, and the apply or the revert of the atom,
      which the commit task calls for the atoms it finds in its lists. */
  datatype EndTurn = PushBy(txn: nat) | PopBy(txn: nat) | Finish

  predicate EndLocked(e: End, txn: nat) { e.owner > 0 && e.owner != txn }

  predicate NextEnd(e: End, step: EndTurn, e': End) {
    match step
    case PushBy(txn) => !EndLocked(e, txn) && e' == End(txn, e.listed || (txn != 0 && txn != e.owner))
    case PopBy(txn) => !EndLocked(e, txn) && e' == e.(owner := txn)
    case Finish => e.listed && e' == End(0, false)
  }

  /** A turn at an end, whether its atom was listed before or not; `joins` tells whether it gets listed. */
  ghost predicate EndTurns(owner: nat, step: EndTurn, owner': nat, joins: bool) {
    forall listed :: NextEnd(End(owner, listed), step, End(owner', listed || joins))
  }

  lemma PushTurns(owner: nat, txn: nat)
    requires !(owner > 0 && owner != txn)
    ensures EndTurns(owner, PushBy(txn), txn, txn != 0 && txn != owner) && EndTurns(owner, PopBy(txn), txn, false)
  {
  }

  predicate EndRun(ends: seq<End>, steps: seq<EndTurn>) {
    |ends| == |steps| + 1 && forall i | 0 <= i < |steps| :: NextEnd(ends[i], steps[i], ends[i + 1])
  }

  /** An end whose owner does not have its atom: it keeps the owner whatever is done, and nobody else
      ever pushes or pops there again. */
  lemma {:induction false} UnlistedForEver(ends: seq<End>, steps: seq<EndTurn>, n: nat)
    requires EndRun(ends, steps) && ends[0].owner != 0 && !ends[0].listed && n < |ends|
    ensures ends[n] == ends[0] && forall txn | txn != ends[0].owner :: EndLocked(ends[n], txn)
  {
    if n > 0 {
      UnlistedForEver(ends, steps, n - 1);
      assert NextEnd(ends[n - 1], steps[n - 1], ends[n]);
    }
  }

  /** An owned end can become free again if and only if its atom is listed. */
  lemma FreedExactly(e: End)
    requires e.owner != 0
    ensures (exists ends: seq<End>, steps: seq<EndTurn>, n: nat ::
               EndRun(ends, steps) && n < |ends| && ends[0] == e && ends[n].owner == 0)
            <==> e.listed
  {
    if e.listed {
      var ends, steps := [e, End(0, false)], [Finish];
      assert EndRun(ends, steps) && ends[1].owner == 0;
    } else if ends: seq<End>, steps: seq<EndTurn>, n: nat :|
      EndRun(ends, steps) && n < |ends| && ends[0] == e && ends[n].owner == 0
    {
      UnlistedForEver(ends, steps, n);
    }
  }

  /** A pop of a transaction at a free end takes the end without its atom; a push at a free end brings
      the atom along, and one at an end the transaction has already taken does not. */
  lemma PopTakesForEver(t: nat, ends: seq<End>, steps: seq<EndTurn>, n: nat)
    requires t != 0 && EndRun(ends, steps) && |steps| > 0 && 0 < n < |ends|
    requires ends[0] == End(0, false) && steps[0] == PopBy(t)
    ensures ends[n].owner == t && !ends[n].listed && forall txn | txn != t :: EndLocked(ends[n], txn)
  {
    assert NextEnd(ends[0], steps[0], ends[1]);
    forall i | 0 <= i < |steps[1..]| ensures NextEnd(ends[1..][i], steps[1..][i], ends[1..][i + 1]) {
      assert NextEnd(ends[i + 1], steps[i + 1], ends[i + 2]);
    }
    UnlistedForEver(ends[1..], steps[1..], n - 1);
  }

  // ------------------------------------------------------------------- list lemmas

  lemma DropOne<V>(pf: seq<Entry<V>>, d: seq<Entry<V>>, pb: seq<Entry<V>>)
    requires ProperLists(pf, d, pb) && d != []
    ensures ProperLists(pf, d[1..], pb) && ProperLists(pf, d[..|d| - 1], pb)
  {
  }

  lemma MoveToFront<V>(pf: seq<Entry<V>>, d: seq<Entry<V>>, pb: seq<Entry<V>>)
    requires ProperLists(pf, d, pb) && pf != []
    ensures ProperLists(pf[..|pf| - 1], [pf[|pf| - 1]] + d, pb)
  {
    assert pf[|pf| - 1] in pf;
  }

  lemma MoveToBack<V>(pf: seq<Entry<V>>, d: seq<Entry<V>>, pb: seq<Entry<V>>)
    requires ProperLists(pf, d, pb) && pb != []
    ensures ProperLists(pf, d + [pb[|pb| - 1]], pb[..|pb| - 1])
  {
    assert pb[|pb| - 1] in pb;
    forall e | e in pf ensures e !in d + [pb[|pb| - 1]] { assert e !in pb; }
  }

  function FrontOf<V>(list: seq<Entry<V>>): Cursor<V> { if list == [] then ListHead else On(list[0]) }

  function BackOf<V>(list: seq<Entry<V>>): Cursor<V> { if list == [] then ListHead else On(list[|list| - 1]) }

  /** The next entry of the list, or the list head. */
  function NextOf<V>(list: seq<Entry<V>>, e: Entry<V>): Cursor<V> {
    if list == [] then ListHead else if list[0] == e then FrontOf(list[1..]) else NextOf(list[1..], e)
  }

  function PrevOf<V>(list: seq<Entry<V>>, e: Entry<V>): Cursor<V> {
    if list == [] then ListHead
    else if list[|list| - 1] == e then BackOf(list[..|list| - 1])
    else PrevOf(list[..|list| - 1], e)
  }

  /** What a removal from the front keeps: the list from the cursor on. */
  ghost function KeptFrom<V>(list: seq<Entry<V>>, c: Cursor<V>): seq<Entry<V>> {
    match c
    case Null => list
    case ListHead => []
    case On(e) => if list == [] || list[0] == e then list else KeptFrom(list[1..], c)
  }

  ghost function KeptUpTo<V>(list: seq<Entry<V>>, c: Cursor<V>): seq<Entry<V>> {
    match c
    case Null => list
    case ListHead => []
    case On(e) => if list == [] || list[|list| - 1] == e then list else KeptUpTo(list[..|list| - 1], c)
  }

  lemma KeptTail<V>(list: seq<Entry<V>>, c: Cursor<V>)
    requires c != Null && FrontOf(list) != c && (c.On? ==> c.e in list)
    ensures list != [] && KeptFrom(list, c) == KeptFrom(list[1..], c)
  {
  }

  lemma KeptAll<V>(list: seq<Entry<V>>, c: Cursor<V>)
    requires FrontOf(list) == c
    ensures KeptFrom(list, c) == list
  {
  }

  lemma KeptInit<V>(list: seq<Entry<V>>, c: Cursor<V>)
    requires c != Null && BackOf(list) != c && list != []
    ensures KeptUpTo(list, c) == KeptUpTo(list[..|list| - 1], c)
    ensures c.On? ==> (c.e in list <==> c.e in list[..|list| - 1])
  {
  }

  lemma KeptWhole<V>(list: seq<Entry<V>>, c: Cursor<V>)
    requires BackOf(list) == c
    ensures KeptUpTo(list, c) == list
  {
  }

  lemma MoveOne<T>(all: seq<T>, n: nat, kept: seq<T>)
    requires n < |all|
    ensures [all[n]] + (all[n + 1..] + kept) == all[n..] + kept
  {
  }

  lemma NothingRemoved<V>(d: seq<Entry<V>>)
    ensures KeptFrom(d, Null) == d && KeptUpTo(d, Null) == d
  {
  }

  lemma NoneReversed<V>()
    ensures Reverse<Entry<V>>([]) == []
  {
  }

  lemma ReverseTail<T>(s: seq<T>, t: seq<T>)
    requires t != [] && Reverse(s) == Reverse(t)[1..]
    ensures s == t[..|t| - 1]
  {
    hide Reverse;
    ReverseLast(t);
    ReverseTwice(s);
    ReverseTwice(t[..|t| - 1]);
  }

  lemma ReverseTwice<T>(s: seq<T>)
    ensures Reverse(Reverse(s)) == s
  {
    hide Reverse;
    var r, q := Reverse(s), Reverse(Reverse(s));
    forall i | 0 <= i < |s| ensures q[i] == s[i] {
      assert q[i] == r[|r| - 1 - i];
      assert r[|r| - 1 - i] == s[|s| - 1 - (|r| - 1 - i)];
    }
  }

  lemma PendingDrops<V>(pf: seq<Entry<V>>, d: seq<Entry<V>>, pb: seq<Entry<V>>)
    requires ProperLists(pf, d, pb)
    ensures Distinct(d)
    ensures pf != [] ==> ProperLists(pf[1..], d, pb) && ProperLists(pf[..|pf| - 1], d, pb)
    ensures pb != [] ==> ProperLists(pf, d, pb[1..]) && ProperLists(pf, d, pb[..|pb| - 1])
  {
  }

  lemma {:induction false} KeptFromNotEmpty<V>(d: seq<Entry<V>>, c: Cursor<V>)
    requires c.On? ==> c.e in d
    ensures KeptFrom(d, c) != [] <==> c != ListHead && d != []
  {
    if c.On? && d[0] != c.e { KeptFromNotEmpty(d[1..], c); }
  }

  lemma {:induction false} KeptUpToNotEmpty<V>(d: seq<Entry<V>>, c: Cursor<V>)
    requires c.On? ==> c.e in d
    ensures KeptUpTo(d, c) != [] <==> c != ListHead && d != []
  {
    if c.On? && d[|d| - 1] != c.e { KeptUpToNotEmpty(d[..|d| - 1], c); }
  }

  /** There is an entry left at an end exactly when its cursor is not on the list head and the list is not empty. */
  lemma CursorLeft<V>(d: seq<Entry<V>>, rf: Cursor<V>, rb: Cursor<V>)
    requires (rf.On? ==> rf.e in d) && (rb.On? ==> rb.e in d)
    ensures KeptFrom(d, rf) != [] <==> rf != ListHead && d != []
    ensures Reverse(KeptUpTo(d, rb)) != [] <==> rb != ListHead && d != []
    ensures d != [] && rf == Null ==> KeptFrom(d, rf) == KeptFrom(d, On(d[0]))
    ensures d != [] && rb == Null ==> KeptUpTo(d, rb) == KeptUpTo(d, On(d[|d| - 1]))
  {
    KeptFromNotEmpty(d, rf);
    KeptUpToNotEmpty(d, rb);
    assert |Reverse(KeptUpTo(d, rb))| == |KeptUpTo(d, rb)|;
  }

  lemma {:induction false} NextInList<V>(d: seq<Entry<V>>, e: Entry<V>)
    ensures NextOf(d, e) != Null && (NextOf(d, e).On? ==> NextOf(d, e).e in d)
  {
    if d != [] && d[0] != e { NextInList(d[1..], e); }
  }

  lemma {:induction false} PrevInList<V>(d: seq<Entry<V>>, e: Entry<V>)
    ensures PrevOf(d, e) != Null && (PrevOf(d, e).On? ==> PrevOf(d, e).e in d)
  {
    if d != [] && d[|d| - 1] != e { PrevInList(d[..|d| - 1], e); }
  }

  /** Moving the front cursor on leaves one entry less. */
  lemma {:induction false} NextLeft<V>(d: seq<Entry<V>>, e: Entry<V>)
    requires Distinct(d) && e in d
    ensures KeptFrom(d, On(e)) != [] && KeptFrom(d, On(e))[0] == e
    ensures KeptFrom(d, NextOf(d, e)) == KeptFrom(d, On(e))[1..]
  {
    if d[0] == e {
      if |d| > 1 { assert KeptFrom(d, On(d[1])) == KeptFrom(d[1..], On(d[1])) == d[1..]; }
    } else {
      var t := d[1..];
      assert e in t;
      NextLeft(t, e);
      NextInList(t, e);
      var c := NextOf(t, e);
      if c.On? { assert d[0] != c.e; }
    }
  }

  lemma {:induction false} PrevKept<V>(d: seq<Entry<V>>, e: Entry<V>)
    requires Distinct(d) && e in d
    ensures var k := KeptUpTo(d, On(e)); k != [] && k[|k| - 1] == e && KeptUpTo(d, PrevOf(d, e)) == k[..|k| - 1]
  {
    if d[|d| - 1] == e {
      if |d| > 1 { assert KeptUpTo(d, On(d[|d| - 2])) == KeptUpTo(d[..|d| - 1], On(d[|d| - 2])) == d[..|d| - 1]; }
    } else {
      var t := d[..|d| - 1];
      assert e in t;
      PrevKept(t, e);
      PrevInList(t, e);
      var c := PrevOf(t, e);
      if c.On? { assert d[|d| - 1] != c.e; }
    }
  }

  lemma PrevLeft<V>(d: seq<Entry<V>>, e: Entry<V>)
    requires Distinct(d) && e in d
    ensures var l := Reverse(KeptUpTo(d, On(e))); l != [] && l[0] == e && Reverse(KeptUpTo(d, PrevOf(d, e))) == l[1..]
  {
    hide KeptUpTo, PrevOf;
    PrevKept(d, e);
    ReverseLast(KeptUpTo(d, On(e)));
  }

  lemma ValuesParts<V>(d: seq<Entry<V>>)
    requires d != []
    ensures Values(d[1..]) == Values(d)[1..] && Values(d[..|d| - 1]) == Values(d)[..|d| - 1]
  {
  }

  lemma {:induction false} ReverseLast<T>(s: seq<T>)
    requires s != []
    ensures Reverse(s) == [s[|s| - 1]] + Reverse(s[..|s| - 1])
  {
  }

  lemma ValuesConcat<V>(a: seq<Entry<V>>, b: seq<Entry<V>>)
    ensures Values(a + b) == Values(a) + Values(b)
  {
  }
}
