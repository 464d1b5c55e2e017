/** The ticket lock: two 16-bit counters that wrap around, and any number of threads. */
module Ticket {

  const RANGE: nat := 0x1_0000

  type Thread = nat

  /** `Releasing` has read now_serving and not yet written it. */
  datatype Pc = Outside | Spinning(my: nat) | Holding | Releasing(seen: nat)

  /** The first three fields are the program's. The others are history variables: how many
      tickets were ever handed out and given back, and which of them, counted without
      wrapping, each thread has; `entries` are the tickets in the order of entry. */
  datatype State = State(
    next_ticket: nat,
    now_serving: nat,
    pcs: map<Thread, Pc>,
    taken: nat,
    served: nat,
    tickets: map<Thread, nat>,
    entries: seq<nat>)

  datatype Step = Take(t: Thread) | Enter(t: Thread) | Load(t: Thread) | Store(t: Thread)

  predicate At(s: State, t: Thread, pc: Pc) { t in s.pcs && s.pcs[t] == pc }

  predicate Next(s: State, step: Step, s': State) {
    match step
    // z_atomic_fetch_and_add on next_ticket
    case Take(t) =>
      && At(s, t, Outside)
      && s' == s.(next_ticket := (s.next_ticket + 1) % RANGE, pcs := s.pcs[t := Spinning(s.next_ticket)],
                  taken := s.taken + 1, tickets := s.tickets[t := s.taken])
    // one look at now_serving
    case Enter(t) =>
      && t in s.pcs && s.pcs[t].Spinning? && t in s.tickets
      && s' == (if s.now_serving == s.pcs[t].my
                then s.(pcs := s.pcs[t := Holding], entries := s.entries + [s.tickets[t]]) else s)
    // now_serving++, in two steps
    case Load(t) => At(s, t, Holding) && s' == s.(pcs := s.pcs[t := Releasing(s.now_serving)])
    case Store(t) =>
      && t in s.pcs && s.pcs[t].Releasing?
      && s' == s.(now_serving := (s.pcs[t].seen + 1) % RANGE, pcs := s.pcs[t := Outside],
                  served := s.served + 1, tickets := s.tickets - {t})
  }

  /** A ticket is taken only while fewer than 65536 are outstanding. */
  predicate InScope(s: State, step: Step) { step.Take? ==> s.taken < s.served + RANGE }

  predicate Initial(s: State) {
    && s.next_ticket == 0 && s.now_serving == 0 && s.taken == 0 && s.served == 0
    && s.tickets == map[] && s.entries == [] && forall t | t in s.pcs :: s.pcs[t] == Outside
  }

  predicate HasTurn(pc: Pc) { pc.Holding? || pc.Releasing? }

  predicate ThreadOk(s: State, t: Thread)
    requires t in s.pcs
  {
    && (t in s.tickets <==> !s.pcs[t].Outside?)
    && (t in s.tickets ==> s.served <= s.tickets[t] < s.taken)
    && (s.pcs[t].Spinning? ==> s.pcs[t].my == s.tickets[t] % RANGE)
    && (HasTurn(s.pcs[t]) ==> s.tickets[t] == s.served)
    && (s.pcs[t].Releasing? ==> s.pcs[t].seen == s.now_serving)
  }

  predicate Counters(s: State) {
    && s.next_ticket == s.taken % RANGE && s.now_serving == s.served % RANGE
    && s.served <= s.taken <= s.served + RANGE
  }

  /** The tickets entered so far are 0, 1, 2, ... up to the one being served. */
  predicate EntriesOk(s: State) {
    && s.served <= |s.entries| <= s.served + 1
    && (forall i | 0 <= i < |s.entries| :: s.entries[i] == i)
    && (|s.entries| > s.served <==> exists t | t in s.pcs :: HasTurn(s.pcs[t]))
  }

  predicate Inv(s: State) {
    && Counters(s)
    && (forall t | t in s.pcs :: ThreadOk(s, t))
    && (forall t | t in s.tickets :: t in s.pcs)
    && (forall t, u | t in s.tickets && u in s.tickets && t != u :: s.tickets[t] != s.tickets[u])
    && EntriesOk(s)
  }

  /** Within one round of the counter, a ticket is known by its last sixteen bits. */
  lemma SameTicket(a: nat, b: nat, low: nat)
    requires low <= a < low + RANGE && low <= b < low + RANGE && a % RANGE == b % RANGE
    ensures a == b
  {
  }

  lemma TakeKeeps(s: State, t: Thread, s': State)
    requires Inv(s) && Next(s, Take(t), s') && InScope(s, Take(t))
    ensures Inv(s')
  {
    hide Counters, EntriesOk, ThreadOk;
    TakeCounters(s, t, s');
    TakeThreads(s, t, s');
    TakeTickets(s, t, s');
    TurnsKept(s, s', t);
  }

  lemma TakeCounters(s: State, t: Thread, s': State)
    requires Counters(s) && Next(s, Take(t), s') && InScope(s, Take(t))
    ensures Counters(s')
  {
    NextServed(s.taken);
  }

  lemma TakeThreads(s: State, t: Thread, s': State)
    requires Inv(s) && Next(s, Take(t), s')
    ensures forall u | u in s'.pcs :: ThreadOk(s', u)
  {
    hide EntriesOk;
    forall u | u in s'.pcs ensures ThreadOk(s', u) { assert ThreadOk(s, u); }
  }

  lemma TakeTickets(s: State, t: Thread, s': State)
    requires Inv(s) && Next(s, Take(t), s')
    ensures forall u, v | u in s'.tickets && v in s'.tickets && u != v :: s'.tickets[u] != s'.tickets[v]
  {
    hide EntriesOk, Counters;
    forall u | u in s.tickets ensures s.tickets[u] < s.taken { assert ThreadOk(s, u); }
  }

  /** A step that neither gives nor takes the turn keeps the entries in order. */
  lemma TurnsKept(s: State, s': State, t: Thread)
    requires EntriesOk(s) && s'.entries == s.entries && s'.served == s.served
    requires t in s.pcs && t in s'.pcs && s'.pcs == s.pcs[t := s'.pcs[t]]
    requires HasTurn(s'.pcs[t]) == HasTurn(s.pcs[t])
    ensures EntriesOk(s')
  {
    if u :| u in s.pcs && HasTurn(s.pcs[u]) { assert HasTurn(s'.pcs[u]); }
    if u :| u in s'.pcs && HasTurn(s'.pcs[u]) { assert HasTurn(s.pcs[u]); }
  }

  /** Nobody has the turn when a thread finds its number served. */
  lemma TurnIsFree(s: State, t: Thread)
    requires Inv(s) && t in s.pcs && s.pcs[t].Spinning? && s.now_serving == s.pcs[t].my
    ensures s.tickets[t] == s.served && forall u | u in s.pcs :: !HasTurn(s.pcs[u])
  {
    assert ThreadOk(s, t);
    SameTicket(s.tickets[t], s.served, s.served);
    forall u | u in s.pcs ensures !HasTurn(s.pcs[u]) { assert ThreadOk(s, u); }
  }

  lemma EnterKeeps(s: State, t: Thread, s': State)
    requires Inv(s) && Next(s, Enter(t), s')
    ensures Inv(s')
  {
    if s' != s {
      TurnIsFree(s, t);
      forall u | u in s'.pcs ensures ThreadOk(s', u) { assert ThreadOk(s, u); }
      assert HasTurn(s'.pcs[t]);
    }
  }

  lemma LoadKeeps(s: State, t: Thread, s': State)
    requires Inv(s) && Next(s, Load(t), s')
    ensures Inv(s')
  {
    forall u | u in s'.pcs ensures ThreadOk(s', u) { assert ThreadOk(s, u); }
    TurnsKept(s, s', t);
  }

  /** The thread that leaves has the oldest ticket outstanding. */
  lemma StoreThread(s: State, t: Thread, s': State, u: Thread)
    requires Inv(s) && Next(s, Store(t), s') && u in s.pcs
    ensures u in s'.pcs && ThreadOk(s', u) && !HasTurn(s'.pcs[u])
  {
    hide Counters, EntriesOk;
    assert ThreadOk(s, t) && ThreadOk(s, u);
  }

  lemma StoreCounters(s: State, t: Thread, s': State)
    requires Inv(s) && Next(s, Store(t), s')
    ensures Counters(s')
  {
    hide EntriesOk;
    assert ThreadOk(s, t);
    NextServed(s.served);
  }

  lemma NextServed(served: nat)
    ensures (served % RANGE + 1) % RANGE == (served + 1) % RANGE
  {
  }

  lemma StoreEntries(s: State, t: Thread, s': State)
    requires Inv(s) && Next(s, Store(t), s')
    ensures EntriesOk(s')
  {
    hide Counters, ThreadOk;
    forall u | u in s'.pcs ensures !HasTurn(s'.pcs[u]) { StoreThread(s, t, s', u); }
    assert HasTurn(s.pcs[t]);
  }

  lemma StoreKeeps(s: State, t: Thread, s': State)
    requires Inv(s) && Next(s, Store(t), s')
    ensures Inv(s')
  {
    hide Counters, EntriesOk, ThreadOk;
    StoreCounters(s, t, s');
    StoreEntries(s, t, s');
    forall u | u in s'.pcs ensures ThreadOk(s', u) { StoreThread(s, t, s', u); }
  }

  lemma Preserved(s: State, step: Step, s': State)
    requires Inv(s) && Next(s, step, s') && InScope(s, step)
    ensures Inv(s')
  {
    match step
    case Take(t) => TakeKeeps(s, t, s');
    case Enter(t) => EnterKeeps(s, t, s');
    case Load(t) => LoadKeeps(s, t, s');
    case Store(t) => StoreKeeps(s, t, s');
  }

  predicate Run(states: seq<State>, steps: seq<Step>) {
    && |states| == |steps| + 1 && Initial(states[0])
    && forall i | 0 <= i < |steps| :: Next(states[i], steps[i], states[i + 1]) && InScope(states[i], steps[i])
  }

  lemma {:induction false} Reached(states: seq<State>, steps: seq<Step>, i: nat)
    requires Run(states, steps) && i < |states|
    ensures Inv(states[i])
  {
    if i > 0 {
      Reached(states, steps, i - 1);
      hide Inv, Next, InScope, Initial;
      Preserved(states[i - 1], steps[i - 1], states[i]);
    }
  }

  /** In every reachable state, after any number of wraps, at most one thread is inside; the
      numbers of the outstanding tickets differ in their sixteen bits; and the threads entered
      in the order of their tickets, none left out. */
  lemma MutualExclusion(states: seq<State>, steps: seq<Step>, i: nat)
    requires Run(states, steps) && i < |states|
    ensures var s := states[i];
            && (forall t, u | t in s.pcs && u in s.pcs && HasTurn(s.pcs[t]) && HasTurn(s.pcs[u]) :: t == u)
            && (forall t, u | t in s.tickets && u in s.tickets && t != u ::
                  s.tickets[t] % RANGE != s.tickets[u] % RANGE)
            && (forall n | 0 <= n < |s.entries| :: s.entries[n] == n)
  {
    Reached(states, steps, i);
    var s := states[i];
    assert forall t | t in s.pcs :: ThreadOk(s, t);
    forall t, u | t in s.tickets && u in s.tickets && t != u ensures s.tickets[t] % RANGE != s.tickets[u] % RANGE {
      if s.tickets[t] % RANGE == s.tickets[u] % RANGE { SameTicket(s.tickets[t], s.tickets[u], s.served); }
    }
  }

  /** The limit is exact: two of the tickets from `served` up to `taken` look the same in
      sixteen bits if and only if more than 65536 are outstanding. */
  lemma CollisionExactly(served: nat, taken: nat)
    ensures (exists a, b :: served <= a < b < taken && a % RANGE == b % RANGE) <==> taken > served + RANGE
  {
    if taken > served + RANGE {
      assert served % RANGE == (served + RANGE) % RANGE;
      assert served <= served < served + RANGE < taken;
    } else if a, b :| served <= a < b < taken && a % RANGE == b % RANGE {
      SameTicket(a, b, served);
    }
  }

  // ------------------------------------------------------------- the scope is exact

  /** A step keeps the invariant if and only if it is in scope. */
  lemma StepExact(s: State, step: Step, s': State)
    requires Inv(s) && Next(s, step, s')
    ensures Inv(s') <==> InScope(s, step)
  {
    if InScope(s, step) {
      hide Inv, Next, InScope;
      Preserved(s, step, s');
    } else {
      OneTooMany(s, step.t, s');
    }
  }

  lemma OneTooMany(s: State, t: Thread, s': State)
    requires Inv(s) && Next(s, Take(t), s') && !InScope(s, Take(t))
    ensures !Counters(s')
  {
    hide EntriesOk, ThreadOk;
  }

  /** Steps of the program, in scope or not. */
  predicate AnyRun(states: seq<State>, steps: seq<Step>) {
    && |states| == |steps| + 1 && Initial(states[0])
    && forall i | 0 <= i < |steps| :: Next(states[i], steps[i], states[i + 1])
  }

  /** A run keeps the invariant in all its states if and only if all its steps are in scope. */
  lemma RunExact(states: seq<State>, steps: seq<Step>)
    requires AnyRun(states, steps)
    ensures (forall i | 0 <= i < |states| :: Inv(states[i]))
            <==> (forall i | 0 <= i < |steps| :: InScope(states[i], steps[i]))
  {
    hide Inv, Next, InScope, Initial;
    if forall i | 0 <= i < |steps| :: InScope(states[i], steps[i]) {
      forall i | 0 <= i < |states| ensures Inv(states[i]) { Reached(states, steps, i); }
    }
    if forall i | 0 <= i < |states| :: Inv(states[i]) {
      forall i | 0 <= i < |steps| ensures InScope(states[i], steps[i]) {
        StepExact(states[i], steps[i], states[i + 1]);
      }
    }
  }

  const CROWD: nat := RANGE + 1

  /** The threads queue in their order. */
  function TicketOf(t: Thread): nat { t }

  /** The threads 0 up to `n` have taken a ticket each, out of 65537. */
  function Queued(n: nat): State
    requires n <= CROWD
  {
    State(n % RANGE, 0, map t: Thread | 0 <= t < CROWD :: if t < n then Spinning(t % RANGE) else Outside, n, 0,
          map t: Thread | 0 <= t < n :: TicketOf(t), [])
  }

  lemma OneMore(n: nat)
    requires n < CROWD
    ensures Next(Queued(n), Take(n), Queued(n + 1))
  {
    var s, s' := Queued(n), Queued(n + 1);
    assert s'.pcs == s.pcs[n := Spinning(s.next_ticket)];
    assert s'.tickets == s.tickets[n := s.taken];
    assert (s.next_ticket + 1) % RANGE == (n + 1) % RANGE by { NextServed(n); }
  }

  /** All have taken a ticket, and the first is inside. */
  function FirstInside(): State {
    Queued(CROWD).(pcs := Queued(CROWD).pcs[0 := Holding], entries := [0])
  }

  function BothInside(): State {
    FirstInside().(pcs := FirstInside().pcs[RANGE := Holding], entries := [0, RANGE])
  }

  lemma BothEnter()
    ensures Next(Queued(CROWD), Enter(0), FirstInside()) && Next(FirstInside(), Enter(RANGE), BothInside())
  {
    assert 0 % RANGE == 0 && RANGE % RANGE == 0;
    assert [] + [0] == [0] && [0] + [RANGE] == [0, RANGE];
  }

  function CrowdStates(): seq<State> {
    seq(CROWD + 1, n requires 0 <= n < CROWD + 1 => Queued(n)) + [FirstInside(), BothInside()]
  }

  function CrowdSteps(): seq<Step> { seq(CROWD, n requires 0 <= n < CROWD => Take(n)) + [Enter(0), Enter(RANGE)] }

  /** Out of scope mutual exclusion fails: of 65537 threads that have taken a ticket, the first and the
      last have the same sixteen bits, and both enter. */
  lemma TwoInside()
    ensures AnyRun(CrowdStates(), CrowdSteps())
    ensures var s := CrowdStates()[CROWD + 2];
            && 0 in s.pcs && RANGE in s.pcs && s.pcs[0] == Holding && s.pcs[RANGE] == Holding
            && s.taken == s.served + CROWD
  {
    hide Next, Queued, FirstInside, BothInside;
    var states, steps := CrowdStates(), CrowdSteps();
    forall i | 0 <= i < |steps| ensures Next(states[i], steps[i], states[i + 1]) {
      if i < CROWD { OneMore(i); } else { BothEnter(); }
    }
    NobodyYet();
    InsideTwice();
  }

  lemma NobodyYet()
    ensures Initial(Queued(0))
  {
  }

  lemma InsideTwice()
    ensures var s := BothInside();
            && 0 in s.pcs && RANGE in s.pcs && s.pcs[0] == Holding && s.pcs[RANGE] == Holding
            && s.taken == s.served + CROWD
  {
  }
}
