/** The 32-bit read/write/commit/lock semaphore, at the granularity of its atomic
    instructions: one load or one compare-and-swap per step, threads interleaved freely.

    A word holds the number of readers (bits 0..28) and the flags WRITE (29), COMMIT (30)
    and LOCK (31). The machine works on the four fields; the lemmas named Code... show that the
    masks of the source act on the packed 32-bit word in the same way. */
module RwcSem {

  datatype Word = Word(readers: nat, write: bool, commit: bool, lock: bool)

  const MAX_READERS: nat := 0x1fff_ffff

  const Free := Word(0, false, false, false)

  datatype Op =
    | AcquireRead | ReleaseRead
    | AcquireWrite | ReleaseWrite
    | SetCommit | AcquireCommit | ReleaseCommit
    | SetLock | AcquireLock | ReleaseLock
    | SwitchToRead | SwitchToCommit

  /** What one turn of a compare-and-swap loop does with the value it last saw: give up with
      a result, or try to replace `expected` by `next`. */
  datatype Turn<W> = Return(result: bool) | Cas(expected: W, next: W)

  /** word + 1, the carry running into the flags. */
  function Increment(w: Word): Word {
    if w.readers < MAX_READERS then w.(readers := w.readers + 1)
    else Word(0, !w.write, w.commit != w.write, w.lock != (w.write && w.commit))
  }

  /** word - 1, the borrow running into the flags. */
  function Decrement(w: Word): Word {
    if w.readers > 0 then w.(readers := w.readers - 1)
    else Word(MAX_READERS, !w.write, w.commit == w.write, w.lock == (w.write || w.commit))
  }

  function Body(op: Op, cur: Word): Turn<Word> {
    match op
    case AcquireRead =>
      if cur.commit then Return(false)
      else var rw := cur.(commit := false, lock := false); Cas(rw, Increment(rw))
    case ReleaseRead => Cas(cur, Decrement(cur))
    case AcquireWrite =>
      if cur.commit || cur.write then Return(false)
      else var r := Word(cur.readers, false, false, false); Cas(r, r.(write := true))
    case ReleaseWrite => Cas(cur, Word(0, false, cur.commit, cur.lock))
    case SetCommit => Cas(cur, cur.(commit := true))
    case AcquireCommit =>
      if cur != Word(0, false, true, false) then Return(false)
      else Cas(Word(0, false, true, false), Word(0, true, true, false))
    case ReleaseCommit => Cas(cur, Word(0, false, false, cur.lock))
    case SetLock => Cas(cur, cur.(lock := true))
    case AcquireLock =>
      if cur != Word(0, false, false, true) then Return(false)
      else Cas(Word(0, false, false, true), Word(0, true, false, true))
    case ReleaseLock => Cas(cur, Free)
    case SwitchToRead =>
      if cur.commit then Return(false)
      else var rw := cur.(commit := false, lock := false); Cas(rw, Word(1, false, false, false))
    case SwitchToCommit => Return(cur == Word(0, true, true, false))
  }

  // ------------------------------------------------- the same loops, on 32-bit words

  const WRITE_FLAG: bv32 := 0x2000_0000
  const COMMIT_FLAG: bv32 := 0x4000_0000
  const LOCK_FLAG: bv32 := 0x8000_0000
  const READERS_MASK: bv32 := 0x1fff_ffff
  const RW_MASK: bv32 := 0x3fff_ffff
  const CW_MASK: bv32 := 0x6000_0000
  const LC_MASK: bv32 := 0xC000_0000

  function Code(op: Op, cur: bv32): Turn<bv32> {
    match op
    case AcquireRead =>
      if cur & COMMIT_FLAG != 0 then Return(false) else Cas(cur & RW_MASK, (cur & RW_MASK) + 1)
    case ReleaseRead => Cas(cur, cur - 1)
    case AcquireWrite =>
      if cur & CW_MASK != 0 then Return(false) else Cas(cur & READERS_MASK, (cur & READERS_MASK) | WRITE_FLAG)
    case ReleaseWrite => Cas(cur, cur & LC_MASK)
    case SetCommit => Cas(cur, cur | COMMIT_FLAG)
    case AcquireCommit =>
      if cur != COMMIT_FLAG then Return(false) else Cas(COMMIT_FLAG, COMMIT_FLAG | WRITE_FLAG)
    case ReleaseCommit => Cas(cur, cur & LOCK_FLAG)
    case SetLock => Cas(cur, cur | LOCK_FLAG)
    case AcquireLock =>
      if cur != LOCK_FLAG then Return(false) else Cas(LOCK_FLAG, LOCK_FLAG | WRITE_FLAG)
    case ReleaseLock => Cas(cur, 0)
    case SwitchToRead =>
      if cur & COMMIT_FLAG != 0 then Return(false) else Cas(cur & RW_MASK, ((cur & RW_MASK) & LC_MASK) + 1)
    case SwitchToCommit => Return(cur == COMMIT_FLAG | WRITE_FLAG)
  }

  /** The fields of a 32-bit word, the reader field still as bits. */
  datatype Packed = Packed(readers: bv32, write: bool, commit: bool, lock: bool)

  function Unpack(x: bv32): Packed {
    Packed(x & READERS_MASK, x & WRITE_FLAG != 0, x & COMMIT_FLAG != 0, x & LOCK_FLAG != 0)
  }

  function UnpackTurn(t: Turn<bv32>): Turn<Packed> {
    match t
    case Return(r) => Return(r)
    case Cas(e, n) => Cas(Unpack(e), Unpack(n))
  }

  /** A word is determined by its fields, so comparing words compares fields. */
  lemma UnpackIsInjective(x: bv32, y: bv32)
    requires Unpack(x) == Unpack(y)
    ensures x == y
  {
  }

  /** Adding and subtracting one, with the carry and the borrow out of the reader field. */
  lemma CodeCounts(x: bv32)
    ensures var p := Unpack(x);
            Unpack(x + 1) == if p.readers != READERS_MASK then p.(readers := p.readers + 1)
                             else Packed(0, !p.write, p.commit != p.write, p.lock != (p.write && p.commit))
    ensures var p := Unpack(x);
            Unpack(x - 1) == if p.readers != 0 then p.(readers := p.readers - 1)
                             else Packed(READERS_MASK, !p.write, p.commit == p.write, p.lock == (p.write || p.commit))
  {
  }

  lemma CodeAcquireRead(x: bv32)
    ensures Code(AcquireRead, x) == if Unpack(x).commit then Return(false) else Cas(x & RW_MASK, (x & RW_MASK) + 1)
    ensures Unpack(x & RW_MASK) == Unpack(x).(commit := false, lock := false)
  {
  }

  lemma CodeSwitchToRead(x: bv32)
    ensures var p, t := Unpack(x), UnpackTurn(Code(SwitchToRead, x));
            t == if p.commit then Return(false) else Cas(p.(lock := false), Packed(1, false, false, false))
  {
    assert (x & RW_MASK) & LC_MASK == 0;
    CodeAcquireRead(x);
  }

  lemma CodeAcquireWriteTest(x: bv32)
    ensures (x & CW_MASK != 0) == (Unpack(x).commit || Unpack(x).write)
  {
  }

  lemma CodeAcquireWrite(x: bv32)
    ensures Unpack(x & READERS_MASK) == Packed(Unpack(x).readers, false, false, false)
    ensures Unpack((x & READERS_MASK) | WRITE_FLAG) == Packed(Unpack(x).readers, true, false, false)
  {
  }

  lemma CodeReleaseWrite(x: bv32)
    ensures var p, t := Unpack(x), UnpackTurn(Code(ReleaseWrite, x));
            t == Cas(p, Packed(0, false, p.commit, p.lock))
  {
  }

  lemma CodeCommits(x: bv32)
    ensures var p, t := Unpack(x), UnpackTurn(Code(SetCommit, x));
            t == Cas(p, p.(commit := true))
    ensures var p, t := Unpack(x), UnpackTurn(Code(AcquireCommit, x));
            t == if p != Packed(0, false, true, false) then Return(false)
                 else Cas(Packed(0, false, true, false), Packed(0, true, true, false))
    ensures var p, t := Unpack(x), UnpackTurn(Code(ReleaseCommit, x));
            t == Cas(p, Packed(0, false, false, p.lock))
    ensures var p, t := Unpack(x), UnpackTurn(Code(SwitchToCommit, x));
            t == Return(p == Packed(0, true, true, false))
  {
  }

  lemma CodeLocks(x: bv32)
    ensures var p, t := Unpack(x), UnpackTurn(Code(SetLock, x));
            t == Cas(p, p.(lock := true))
    ensures var p, t := Unpack(x), UnpackTurn(Code(AcquireLock, x));
            t == if p != Packed(0, false, false, true) then Return(false)
                 else Cas(Packed(0, false, false, true), Packed(0, true, false, true))
    ensures var p, t := Unpack(x), UnpackTurn(Code(ReleaseLock, x));
            t == Cas(p, Packed(0, false, false, false))
  {
  }

  // ------------------------------------------------------------- the machine

  datatype Hold = NoHold | Reader | Writer | Committer | Locker

  /** A thread is idle, or inside the loop of `op` with the value it last saw. */
  datatype Call = Idle | Looping(op: Op, seen: Word)
  datatype Thread = Thread(hold: Hold, call: Call)

  datatype State = State(word: Word, threads: map<nat, Thread>)

  datatype Step =
    | Load(t: nat, op: Op)   // enter an operation: z_atomic_load
    | Try(t: nat)            // one turn of its loop: decide, then z_atomic_vcas

  /** The callers release what they hold and acquire with empty hands. The COMMIT flag of a
      transaction is raised by a thread that holds nothing. */
  predicate MayCall(hold: Hold, op: Op) {
    match op
    case AcquireRead => hold == NoHold
    case AcquireWrite => hold == NoHold
    case AcquireCommit => hold == NoHold
    case AcquireLock => hold == NoHold
    case SetLock => hold == NoHold
    case SetCommit => hold == NoHold || hold == Writer
    case ReleaseRead => hold == Reader
    case ReleaseWrite => hold == Writer
    case SwitchToRead => hold == Writer
    case SwitchToCommit => hold == Writer
    case ReleaseCommit => hold == Committer
    case ReleaseLock => hold == Locker
  }

  function HoldAfter(op: Op, hold: Hold): Hold {
    match op
    case AcquireRead => Reader
    case AcquireWrite => Writer
    case AcquireCommit => Committer
    case AcquireLock => Locker
    case SwitchToRead => Reader
    case SwitchToCommit => Committer
    case SetCommit => hold
    case SetLock => hold
    case _ => NoHold
  }

  predicate Enabled(s: State, step: Step) {
    match step
    case Load(t, op) => t in s.threads && s.threads[t].call == Idle && MayCall(s.threads[t].hold, op)
    case Try(t) => t in s.threads && s.threads[t].call.Looping?
  }

  function Next(s: State, step: Step): State
    requires Enabled(s, step)
  {
    var thread := s.threads[step.t];
    match step
    case Load(t, op) => s.(threads := s.threads[t := thread.(call := Looping(op, s.word))])
    case Try(t) =>
      var op := thread.call.op;
      match Body(op, thread.call.seen)
      case Return(result) =>
        s.(threads := s.threads[t := Thread(if result then HoldAfter(op, thread.hold) else thread.hold, Idle)])
      case Cas(expected, next) =>
        if s.word == expected then
          State(next, s.threads[t := Thread(HoldAfter(op, thread.hold), Idle)])
        else
          s.(threads := s.threads[t := thread.(call := Looping(op, s.word))])
  }

  /** The step is a compare-and-swap of `op` that succeeds. */
  predicate Swaps(s: State, step: Step, op: Op)
    requires Enabled(s, step)
  {
    && step.Try?
    && s.threads[step.t].call.op == op
    && var turn := Body(op, s.threads[step.t].call.seen);
    && turn.Cas?
    && turn.expected == s.word
  }

  ghost function Holders(s: State, hold: Hold): set<nat> {
    set t | t in s.threads && s.threads[t].hold == hold
  }

  predicate Exclusive(hold: Hold) { hold == Writer || hold == Committer || hold == Locker }

  predicate WellFormed(s: State) {
    forall t | t in s.threads && s.threads[t].call.Looping? :: MayCall(s.threads[t].hold, s.threads[t].call.op)
  }

  /** The reader field counts the read holders. */
  ghost predicate CountsReaders(s: State) {
    s.word.readers == |Holders(s, Reader)| <= MAX_READERS
  }

  /** The WRITE bit is set exactly when there is a write, commit or lock holder, and there is
      never a second one. */
  predicate OneExclusive(s: State) {
    && (s.word.write <==> exists t :: t in s.threads && Exclusive(s.threads[t].hold))
    && forall t, u | t in s.threads && u in s.threads
         && Exclusive(s.threads[t].hold) && Exclusive(s.threads[u].hold) :: t == u
  }

  /** A commit or lock holder has its flag up and shares the word with no reader. */
  predicate AloneWhenCommitting(s: State) {
    forall t | t in s.threads ::
      && (s.threads[t].hold == Committer ==> s.word.commit && s.word.readers == 0)
      && (s.threads[t].hold == Locker ==> s.word.lock && s.word.readers == 0)
  }

  /** The write-to-commit switch answers from the value it loaded; that answer stays true. */
  predicate SwitchesAreFresh(s: State) {
    forall t | t in s.threads && s.threads[t].call.Looping?
               && s.threads[t].call.op == SwitchToCommit && s.threads[t].call.seen == Word(0, true, true, false) ::
      s.word.commit && s.word.readers == 0
  }

  ghost predicate Inv(s: State) {
    WellFormed(s) && CountsReaders(s) && OneExclusive(s) && AloneWhenCommitting(s) && SwitchesAreFresh(s)
  }

  /** Runs the theorem covers: fewer than 2^29 readers, and no read hold across a write release
      or a write-to-read switch. */
  ghost predicate InScope(s: State, step: Step)
    requires Enabled(s, step)
  {
    && (Swaps(s, step, AcquireRead) ==> |Holders(s, Reader)| < MAX_READERS)
    && (Swaps(s, step, ReleaseWrite) || Swaps(s, step, SwitchToRead) ==> Holders(s, Reader) == {})
  }

  lemma HoldersAfter(s: State, s': State, t: nat, hold: Hold)
    requires t in s.threads && t in s'.threads && s'.threads.Keys == s.threads.Keys
    requires forall u | u in s.threads && u != t :: s'.threads[u].hold == s.threads[u].hold
    ensures Holders(s', hold) == if s'.threads[t].hold == hold then Holders(s, hold) + {t} else Holders(s, hold) - {t}
    ensures |Holders(s', hold)| == |Holders(s, hold)|
              + (if s'.threads[t].hold == hold then 1 else 0) - (if s.threads[t].hold == hold then 1 else 0)
  {
    var before, after := Holders(s, hold), Holders(s', hold);
    assert after == if s'.threads[t].hold == hold then before + {t} else before - {t};
    if t in before { assert before == (before - {t}) + {t}; }
  }

  /** Everything a step can do to the word and to the hold of the thread that takes it. */
  predicate Effect(w: Word, h: Hold, w': Word, h': Hold) {
    || (w' == w && h' == h)
    || (w' == w.(commit := true) && h' == h)
    || (w' == w.(lock := true) && h' == h)
    || (h == NoHold && h' == Reader && !w.commit && !w.lock && w.readers < MAX_READERS
        && w' == w.(readers := w.readers + 1))
    || (h == Reader && h' == NoHold && w.readers > 0 && w' == w.(readers := w.readers - 1))
    || (h == NoHold && h' == Writer && !w.write && !w.commit && !w.lock && w' == w.(write := true))
    || (h == Writer && h' == NoHold && w.readers == 0 && w' == w.(write := false))
    || (h == Writer && h' == Reader && w.readers == 0 && w.write && !w.commit && !w.lock
        && w' == Word(1, false, false, false))
    || (h == Writer && h' == Committer && w.readers == 0 && w.commit && w' == w)
    || (h == NoHold && h' == Committer && w == Word(0, false, true, false) && w' == w.(write := true))
    || (h == Committer && h' == NoHold && w.readers == 0 && w' == w.(write := false, commit := false))
    || (h == NoHold && h' == Locker && w == Word(0, false, false, true) && w' == w.(write := true))
    || (h == Locker && h' == NoHold && w' == Free)
  }

  lemma StepEffect(s: State, step: Step)
    requires Inv(s) && Enabled(s, step) && InScope(s, step)
    ensures var s', t := Next(s, step), step.t;
            && Effect(s.word, s.threads[t].hold, s'.word, s'.threads[t].hold)
            && s'.threads == s.threads[t := s'.threads[t]]
  {
    hide Body, Effect;
    var thread := s.threads[step.t];
    if thread.hold == Reader { assert step.t in Holders(s, Reader); }
    if thread.call.Looping? {
      var op, seen := thread.call.op, thread.call.seen;
      if Body(op, seen).Cas? && Body(op, seen).expected == s.word { SwapEffect(s.word, thread.hold, op, seen); }
      AnswerEffect(s.word, thread.hold, op, seen);
    }
    NoEffect(s.word, thread.hold);
  }

  lemma NoEffect(w: Word, h: Hold)
    ensures Effect(w, h, w, h)
  {
  }

  /** A compare-and-swap that succeeds. */
  lemma SwapEffect(w: Word, h: Hold, op: Op, seen: Word)
    requires MayCall(h, op) && Body(op, seen).Cas? && Body(op, seen).expected == w
    requires op == AcquireRead ==> w.readers < MAX_READERS
    requires h == Reader ==> w.readers > 0
    requires h == Writer ==> w.write && (op == ReleaseWrite || op == SwitchToRead ==> w.readers == 0)
    requires h == Committer ==> w.readers == 0
    ensures Effect(w, h, Body(op, seen).next, HoldAfter(op, h))
  {
  }

  /** An answer without a swap. */
  lemma AnswerEffect(w: Word, h: Hold, op: Op, seen: Word)
    requires MayCall(h, op)
    requires op == SwitchToCommit && seen == Word(0, true, true, false) ==> w.commit && w.readers == 0
    ensures Body(op, seen) == Return(true) ==> Effect(w, h, w, HoldAfter(op, h))
  {
  }

  lemma KeepsCount(s: State, step: Step)
    requires Inv(s) && Enabled(s, step) && InScope(s, step)
    ensures CountsReaders(Next(s, step))
  {
    StepEffect(s, step);
    HoldersAfter(s, Next(s, step), step.t, Reader);
  }

  lemma KeepsOneExclusive(s: State, step: Step)
    requires Inv(s) && Enabled(s, step) && InScope(s, step)
    ensures OneExclusive(Next(s, step))
  {
    StepEffect(s, step);
    var s' := Next(s, step);
    if Exclusive(s.threads[step.t].hold) {
      assert s.word.write;
    }
    if Exclusive(s'.threads[step.t].hold) {
      assert s'.word.write;
    } else if s'.word.write {
      var u :| u in s.threads && Exclusive(s.threads[u].hold);
      assert u in s'.threads && Exclusive(s'.threads[u].hold);
    }
  }

  lemma KeepsTheRest(s: State, step: Step)
    requires Inv(s) && Enabled(s, step) && InScope(s, step)
    ensures WellFormed(Next(s, step)) && AloneWhenCommitting(Next(s, step)) && SwitchesAreFresh(Next(s, step))
  {
    StepEffect(s, step);
  }

  /** Every step in scope keeps the invariant, whatever the other threads have loaded. */
  lemma Preserved(s: State, step: Step)
    requires Inv(s) && Enabled(s, step) && InScope(s, step)
    ensures Inv(Next(s, step))
  {
    KeepsCount(s, step);
    KeepsOneExclusive(s, step);
    KeepsTheRest(s, step);
  }

  // ------------------------------------------------------------------ runs

  /** A run: consecutive states, each the result of an enabled step. */
  predicate Run(states: seq<State>, steps: seq<Step>) {
    && |states| == |steps| + 1
    && forall i | 0 <= i < |steps| :: Enabled(states[i], steps[i]) && states[i + 1] == Next(states[i], steps[i])
  }

  /** No thread holds anything and none is inside an operation. */
  predicate Initial(s: State) {
    s.word == Free && forall t | t in s.threads :: s.threads[t] == Thread(NoHold, Idle)
  }

  /** Safety of every run in scope, at every state of it. */
  lemma {:induction false} Safety(states: seq<State>, steps: seq<Step>, n: nat)
    requires Run(states, steps) && Initial(states[0])
    requires forall i | 0 <= i < |steps| :: InScope(states[i], steps[i])
    requires n <= |steps|
    ensures Inv(states[n])
    ensures Holders(states[n], Committer) + Holders(states[n], Locker) != {} ==> Holders(states[n], Reader) == {}
  {
    var s := states[n];
    if n == 0 {
      assert Holders(s, Reader) == {};
    } else {
      Safety(states, steps, n - 1);
      Preserved(states[n - 1], steps[n - 1]);
      assert s == Next(states[n - 1], steps[n - 1]);
    }
    if t :| t in s.threads && (s.threads[t].hold == Committer || s.threads[t].hold == Locker) {
      assert |Holders(s, Reader)| == 0;
    }
  }

  /** In any state at all, a read is granted only while neither COMMIT nor LOCK is raised. */
  lemma ReadsWaitForCommitAndLock(s: State, step: Step)
    requires Enabled(s, step) && Swaps(s, step, AcquireRead)
    ensures !s.word.commit && !s.word.lock
  {
  }

  /** A write release keeps the invariant exactly when no read hold spans it: its mask clears
      the reader field together with the WRITE bit. */
  lemma WriteReleaseExact(s: State, step: Step)
    requires Inv(s) && Enabled(s, step) && Swaps(s, step, ReleaseWrite)
    ensures Inv(Next(s, step)) <==> Holders(s, Reader) == {}
  {
    HoldersAfter(s, Next(s, step), step.t, Reader);
    if Holders(s, Reader) == {} { Preserved(s, step); }
  }

  /** The same for the write-to-read switch, which leaves the reader field at one. */
  lemma ReadSwitchExact(s: State, step: Step)
    requires Inv(s) && Enabled(s, step) && Swaps(s, step, SwitchToRead)
    ensures Inv(Next(s, step)) <==> Holders(s, Reader) == {}
  {
    HoldersAfter(s, Next(s, step), step.t, Reader);
    if Holders(s, Reader) == {} { Preserved(s, step); }
  }

  lemma Extend(states: seq<State>, steps: seq<Step>, step: Step) returns (states': seq<State>, steps': seq<Step>)
    requires Run(states, steps) && Enabled(states[|steps|], step)
    ensures Run(states', steps') && |steps'| == |steps| + 1 && states'[0] == states[0]
    ensures states'[|steps'|] == Next(states[|steps|], step)
  {
    states', steps' := states + [Next(states[|steps|], step)], steps + [step];
  }

  /** One thread enters `op` and runs its loop once, undisturbed. */
  lemma Undisturbed(states: seq<State>, steps: seq<Step>, t: nat, op: Op)
    returns (states': seq<State>, steps': seq<Step>)
    requires Run(states, steps) && Enabled(states[|steps|], Load(t, op))
    ensures Run(states', steps') && |steps'| == |steps| + 2 && states'[0] == states[0]
    ensures states'[|steps'|] == Next(Next(states[|steps|], Load(t, op)), Try(t))
  {
    states', steps' := Extend(states, steps, Load(t, op));
    states', steps' := Extend(states', steps', Try(t));
  }

  /** Thread 0 reads across the write of thread 1: the word forgets it. */
  lemma ReaderForgotten() returns (states: seq<State>, steps: seq<Step>)
    ensures Run(states, steps) && Initial(states[0])
    ensures states[|steps|].word == Free
    ensures states[|steps|].threads
            == map[0 := Thread(Reader, Idle), 1 := Thread(NoHold, Idle), 2 := Thread(NoHold, Idle)]
  {
    var idle := Thread(NoHold, Idle);
    states, steps := [State(Free, map[0 := idle, 1 := idle, 2 := idle])], [];
    states, steps := Undisturbed(states, steps, 0, AcquireRead);
    assert states[|steps|] == State(Word(1, false, false, false), map[0 := Thread(Reader, Idle), 1 := idle, 2 := idle]);
    states, steps := Undisturbed(states, steps, 1, AcquireWrite);
    assert states[|steps|] == State(Word(1, true, false, false),
                                    map[0 := Thread(Reader, Idle), 1 := Thread(Writer, Idle), 2 := idle]);
    states, steps := Undisturbed(states, steps, 1, ReleaseWrite);
  }

  /** Outside that scope exclusion fails: thread 0 reads across the write of thread 1, and
      thread 2 is granted the commit while thread 0 still reads. */
  lemma ReaderLostAtWriteRelease() returns (states: seq<State>, steps: seq<Step>)
    ensures Run(states, steps) && Initial(states[0])
    ensures var last := states[|steps|].threads;
            0 in last && last[0].hold == Reader && 2 in last && last[2].hold == Committer
  {
    states, steps := ReaderForgotten();
    states, steps := Undisturbed(states, steps, 2, SetCommit);
    assert states[|steps|].word == Word(0, false, true, false)
           && states[|steps|].threads == states[|steps|].threads[2 := Thread(NoHold, Idle)];
    states, steps := Undisturbed(states, steps, 2, AcquireCommit);
  }
}
