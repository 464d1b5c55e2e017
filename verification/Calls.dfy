/** The calls on a number object, and what running them one after the other means. */
module Calls {

  type Oid = nat
  type TxnId = nat   // 0 stands for "no transaction"

  const INT64_MIN: int := -0x8000_0000_0000_0000
  const INT64_MAX: int := 0x7fff_ffff_ffff_ffff

  predicate InRange(v: int) { INT64_MIN <= v <= INT64_MAX }

  datatype Call =
    | Set(value: int)
    | Cas(expected: int, value: int)
    | Add(amount: int)
    | Mul(factor: int)
    | Div(divisor: int)

  /** The out-parameters of a successful call. */
  datatype Reply = NoReply | Current(value: int) | DivMod(mod: int, value: int)

  datatype Outcome = Done(value: int, reply: Reply) | Refused

  /** C division: the quotient is truncated toward zero, the remainder has the sign of `a`. */
  function TruncDiv(a: int, b: int): int
    requires b != 0
  {
    if a >= 0 then a / b else -((-a) / b)
  }

  function TruncMod(a: int, b: int): int
    requires b != 0
  {
    a - TruncDiv(a, b) * b
  }

  /** One call on a number holding `v`. A refused call leaves the number as it is. */
  function Execute(call: Call, v: int): Outcome {
    match call
    case Set(x) => Done(x, NoReply)
    case Cas(e, x) => if v == e then Done(x, Current(v)) else Refused
    case Add(n) => Done(v + n, Current(v + n))
    case Mul(n) => Done(v * n, Current(v * n))
    case Div(d) =>
      if d == 0 then Refused
      else Done(TruncDiv(v, d), DivMod(TruncMod(v, d), TruncDiv(v, d)))
  }

  /** A successful call as it was seen by its caller. */
  datatype Entry = Entry(oid: Oid, call: Call, reply: Reply)

  /** One indivisible item of the history. */
  datatype Event = Standalone(entry: Entry) | Committed(txn: TxnId, entries: seq<Entry>)

  function EntriesOf(e: Event): seq<Entry> {
    match e
    case Standalone(entry) => [entry]
    case Committed(_, entries) => entries
  }

  /** All calls of a history, event after event. */
  function Flat(history: seq<Event>): seq<Entry> {
    if history == [] then [] else Flat(history[..|history| - 1]) + EntriesOf(history[|history| - 1])
  }

  /** The value of object `o`, worth `v` before, after the calls of `log` on it. */
  function ValueAfter(v: int, log: seq<Entry>, o: Oid): int {
    if log == [] then v
    else
      var before := ValueAfter(v, log[..|log| - 1], o);
      var last := log[|log| - 1];
      if last.oid == o && Execute(last.call, before).Done? then Execute(last.call, before).value else before
  }

  /** Every call of `log` on `o` succeeds again and gives the reply it gave. */
  predicate Faithful(v: int, log: seq<Entry>, o: Oid) {
    log == []
    || (&& Faithful(v, log[..|log| - 1], o)
        && var last := log[|log| - 1];
           (last.oid == o ==>
              var outcome := Execute(last.call, ValueAfter(v, log[..|log| - 1], o));
              outcome.Done? && outcome.reply == last.reply && InRange(outcome.value)))
  }

  /** The committed value of `o`: zero, then every event of the history in order. */
  function ReplayValue(history: seq<Event>, o: Oid): int {
    ValueAfter(0, Flat(history), o)
  }

  // ---------------------------------------------------------------- lemmas

  lemma {:induction false} ValueAfterConcat(v: int, a: seq<Entry>, b: seq<Entry>, o: Oid)
    ensures ValueAfter(v, a + b, o) == ValueAfter(ValueAfter(v, a, o), b, o)
    ensures Faithful(v, a + b, o) <==> Faithful(v, a, o) && Faithful(ValueAfter(v, a, o), b, o)
  {
    if b == [] {
      assert a + b == a;
    } else {
      var init := b[..|b| - 1];
      assert (a + b)[..|a + b| - 1] == a + init;
      ValueAfterConcat(v, a, init, o);
    }
  }

  lemma {:induction false} Untouched(v: int, log: seq<Entry>, o: Oid)
    requires forall e | e in log :: e.oid != o
    ensures ValueAfter(v, log, o) == v && Faithful(v, log, o)
  {
    if log != [] {
      assert log[|log| - 1] in log;
      Untouched(v, log[..|log| - 1], o);
    }
  }

  lemma FlatSnoc(history: seq<Event>, e: Event)
    ensures Flat(history + [e]) == Flat(history) + EntriesOf(e)
  {
    assert (history + [e])[..|history|] == history;
  }

  lemma ReplaySnoc(history: seq<Event>, e: Event, o: Oid)
    ensures ReplayValue(history + [e], o) == ValueAfter(ReplayValue(history, o), EntriesOf(e), o)
    ensures Faithful(0, Flat(history + [e]), o)
            <==> Faithful(0, Flat(history), o) && Faithful(ReplayValue(history, o), EntriesOf(e), o)
  {
    FlatSnoc(history, e);
    ValueAfterConcat(0, Flat(history), EntriesOf(e), o);
  }

  lemma LogSnoc(v: int, log: seq<Entry>, e: Entry, o: Oid)
    ensures ValueAfter(v, log + [e], o)
            == var before := ValueAfter(v, log, o);
               if e.oid == o && Execute(e.call, before).Done? then Execute(e.call, before).value else before
    ensures Faithful(v, log + [e], o) <==>
            && Faithful(v, log, o)
            && (e.oid == o ==>
                  var outcome := Execute(e.call, ValueAfter(v, log, o));
                  outcome.Done? && outcome.reply == e.reply && InRange(outcome.value))
  {
    assert (log + [e])[..|log|] == log;
  }

  // --------------------------------------------------- serial execution on a store

  /** All objects at once. An object that was never written is worth zero. */
  type Store = map<Oid, int>

  function Get(store: Store, o: Oid): int { if o in store then store[o] else 0 }

  /** The store after running the calls one after the other. */
  function FinalStore(log: seq<Entry>): Store {
    if log == [] then map[]
    else
      var store, last := FinalStore(log[..|log| - 1]), log[|log| - 1];
      var outcome := Execute(last.call, Get(store, last.oid));
      if outcome.Done? then store[last.oid := outcome.value] else store
  }

  /** Run one after the other, all calls succeed, with the replies they gave. */
  predicate RepeatsSerially(log: seq<Entry>) {
    log == []
    || (&& RepeatsSerially(log[..|log| - 1])
        && var last := log[|log| - 1];
           var outcome := Execute(last.call, Get(FinalStore(log[..|log| - 1]), last.oid));
           outcome.Done? && outcome.reply == last.reply && InRange(outcome.value))
  }

  /** Object by object, the serial execution is what the projections say. */
  lemma {:induction false} StoreByObject(log: seq<Entry>, o: Oid)
    ensures Get(FinalStore(log), o) == ValueAfter(0, log, o)
  {
    if log != [] {
      StoreByObject(log[..|log| - 1], o);
      StoreByObject(log[..|log| - 1], log[|log| - 1].oid);
    }
  }

  lemma {:induction false} RepeatsByObject(log: seq<Entry>)
    requires forall o :: Faithful(0, log, o)
    ensures RepeatsSerially(log)
  {
    if log != [] {
      var init, last := log[..|log| - 1], log[|log| - 1];
      forall o ensures Faithful(0, init, o) { assert Faithful(0, log, o); }
      RepeatsByObject(init);
      assert Faithful(0, log, last.oid);
      StoreByObject(init, last.oid);
    }
  }
}
