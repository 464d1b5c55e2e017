/** The single step that the protocol takes for a semaphore operation, against the loads and
    swaps of its loop. */
module TxnTurns {
  import M = TxnMachine
  import RwcSem

  /** When the swap of a loop succeeds, however long ago the thread loaded the word, its effect is
      that of one undisturbed turn on the word as it is at the swap. */
  lemma SwapIsOneTurn(s: RwcSem.State, step: RwcSem.Step, op: RwcSem.Op)
    requires RwcSem.Enabled(s, step) && RwcSem.Swaps(s, step, op)
    ensures M.Try(op, s.word) == M.Success(RwcSem.Next(s, step).word)
  {
  }

  /** When a loop ends with a refusal, the answer is that of one turn on the word it loaded last,
      and the word stays as it is. */
  lemma RefusalIsOneTurn(s: RwcSem.State, step: RwcSem.Step)
    requires RwcSem.Enabled(s, step) && step.Try?
             && RwcSem.Body(s.threads[step.t].call.op, s.threads[step.t].call.seen).Return?
    ensures M.Try(s.threads[step.t].call.op, s.threads[step.t].call.seen) == M.Refusal
    ensures RwcSem.Next(s, step).word == s.word
  {
  }

  /** A load, or a swap that fails, changes nothing but what the thread has seen. */
  lemma OtherwiseNothing(s: RwcSem.State, step: RwcSem.Step, op: RwcSem.Op)
    requires RwcSem.Enabled(s, step) && (step.Try? ==> s.threads[step.t].call.op == op && !RwcSem.Swaps(s, step, op))
    ensures RwcSem.Next(s, step).word == s.word
    ensures step.Load? || RwcSem.Body(op, s.threads[step.t].call.seen).Cas? ==>
              RwcSem.Next(s, step).threads[step.t].hold == s.threads[step.t].hold
  {
  }

  // --------------------------------------------- a run of loads and swaps as a run of turns

  /** The semaphore with whole operations: the word, and what every thread holds. */
  datatype Whole = Whole(word: RwcSem.Word, holds: map<nat, RwcSem.Hold>)

  /** One turn of `op` by thread `t`, as the protocol takes it, on the word of this moment. */
  predicate TakesTurn(a: Whole, t: nat, op: RwcSem.Op, a': Whole) {
    && t in a.holds && RwcSem.MayCall(a.holds[t], op)
    && match RwcSem.Body(op, a.word)
       case Return(answer) =>
         a' == a.(holds := a.holds[t := if answer then RwcSem.HoldAfter(op, a.holds[t]) else a.holds[t]])
       case Cas(_, _) =>
         a' == match M.Try(op, a.word)
               case Success(w) => Whole(w, a.holds[t := RwcSem.HoldAfter(op, a.holds[t])])
               case _ => a
  }

  /** A thread that loaded a word on which the switch to COMMIT answers yes has switched there and then. */
  function HoldOf(thread: RwcSem.Thread): RwcSem.Hold {
    if thread.call == RwcSem.Looping(RwcSem.SwitchToCommit, RwcSem.Word(0, true, true, false)) then RwcSem.Committer
    else thread.hold
  }

  function WholeOf(s: RwcSem.State): Whole { Whole(s.word, map t | t in s.threads :: HoldOf(s.threads[t])) }

  lemma LoadRefines(s: RwcSem.State, step: RwcSem.Step)
    requires RwcSem.Enabled(s, step) && step.Load?
    ensures var a, a' := WholeOf(s), WholeOf(RwcSem.Next(s, step));
            a' == a || TakesTurn(a, step.t, step.op, a')
  {
    var a, a' := WholeOf(s), WholeOf(RwcSem.Next(s, step));
    assert a'.holds == a.holds[step.t := a'.holds[step.t]];
  }

  lemma TryRefines(s: RwcSem.State, step: RwcSem.Step)
    requires RwcSem.WellFormed(s) && RwcSem.Enabled(s, step) && step.Try?
    ensures var a, a' := WholeOf(s), WholeOf(RwcSem.Next(s, step));
            a' == a || TakesTurn(a, step.t, s.threads[step.t].call.op, a')
  {
    var a, a' := WholeOf(s), WholeOf(RwcSem.Next(s, step));
    assert a'.holds == a.holds[step.t := a'.holds[step.t]];
    var op := s.threads[step.t].call.op;
    if RwcSem.Swaps(s, step, op) { SwapIsOneTurn(s, step, op); }
  }

  /** Every step of loads and swaps is one turn of the protocol, or nothing. */
  lemma StepRefines(s: RwcSem.State, step: RwcSem.Step)
    requires RwcSem.WellFormed(s) && RwcSem.Enabled(s, step)
    ensures RwcSem.WellFormed(RwcSem.Next(s, step))
    ensures var a, a' := WholeOf(s), WholeOf(RwcSem.Next(s, step));
            a' == a || exists op :: TakesTurn(a, step.t, op, a')
  {
    hide TakesTurn, WholeOf;
    if step.Load? { LoadRefines(s, step); } else { TryRefines(s, step); }
  }

  lemma {:induction false} StaysWellFormed(states: seq<RwcSem.State>, steps: seq<RwcSem.Step>, n: nat)
    requires RwcSem.Run(states, steps) && RwcSem.Initial(states[0]) && n < |states|
    ensures RwcSem.WellFormed(states[n])
  {
    hide RwcSem.Next, RwcSem.Enabled;
    if n > 0 {
      StaysWellFormed(states, steps, n - 1);
      StepRefines(states[n - 1], steps[n - 1]);
    }
  }

  /** Every run of loads and swaps, with any number of threads and in scope or not, is a run of
      whole turns of the protocol, taken one after the other. */
  lemma RunRefines(states: seq<RwcSem.State>, steps: seq<RwcSem.Step>, n: nat)
    requires RwcSem.Run(states, steps) && RwcSem.Initial(states[0]) && n < |steps|
    ensures WholeOf(states[0]).word == RwcSem.Free
    ensures forall t | t in WholeOf(states[0]).holds :: WholeOf(states[0]).holds[t] == RwcSem.NoHold
    ensures var a, a' := WholeOf(states[n]), WholeOf(states[n + 1]);
            a' == a || exists op :: TakesTurn(a, steps[n].t, op, a')
  {
    StaysWellFormed(states, steps, n);
    hide TakesTurn, RwcSem.Next, RwcSem.Enabled, RwcSem.WellFormed;
    StepRefines(states[n], steps[n]);
  }

  /** Thread `t` loaded `seen` at step `j`, by entering `op` or by a swap that failed, and has been in
      the loop since. */
  predicate LoadedAt(states: seq<RwcSem.State>, steps: seq<RwcSem.Step>, t: nat, op: RwcSem.Op, seen: RwcSem.Word,
                     j: nat, n: nat)
    requires |states| == |steps| + 1
  {
    j < n < |states| && steps[j].t == t && states[j].word == seen
    && forall i | j < i <= n :: t in states[i].threads && states[i].threads[t].call == RwcSem.Looping(op, seen)
  }

  /** The word a thread decides on was the word of the semaphore while the thread was in the operation:
      an answer without a swap is that of a turn taken at that moment. */
  lemma {:induction false} SeenWasThere(states: seq<RwcSem.State>, steps: seq<RwcSem.Step>, t: nat, n: nat)
    requires RwcSem.Run(states, steps) && RwcSem.Initial(states[0]) && n < |states|
    requires t in states[n].threads && states[n].threads[t].call.Looping?
    ensures var call := states[n].threads[t].call;
            exists j: nat :: LoadedAt(states, steps, t, call.op, call.seen, j, n)
    decreases n
  {
    var call := states[n].threads[t].call;
    assert n > 0;
    var before, step := states[n - 1], steps[n - 1];
    assert states[n] == RwcSem.Next(before, step);
    if step.t == t {
      assert LoadedAt(states, steps, t, call.op, call.seen, n - 1, n);
    } else {
      SeenWasThere(states, steps, t, n - 1);
      var j: nat :| LoadedAt(states, steps, t, call.op, call.seen, j, n - 1);
      assert LoadedAt(states, steps, t, call.op, call.seen, j, n);
    }
  }
}
