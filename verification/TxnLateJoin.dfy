/** A run out of scope: an operation that looked a transaction up before its submission acquires
    it after it has finished, and its write leaves the number owned by a finished transaction. */
module TxnLateJoin {
  import opened Common
  import opened Calls
  import opened TxnMachine
  import RwcSem

  const LateKind: Kind := Writing(Set(5))
  const FreshObject: Object := Object(Number(0, 0, 0), RwcSem.Free, 0, Nobody, None, {}, 0)

  /** One object, one transaction and one task. */
  function Conf(ob: Object, txn: Txn, task: Task, cache: set<TxnId>, manager: TxnId, history: seq<Event>): State {
    State(map[1 := ob], map[1 := txn], map[0 := task], cache, manager, history, [])
  }

  const TxnHeld := RwcSem.Word(0, true, true, false)
  const OneEvent := [Committed(1, [])]

  function LateTask(pc: Pc): Task { Task(1, 1, LateKind, pc, NoReply) }

  /** The task waits between its lookup and its acquisition while the transaction runs to its end. */
  function During(sem: RwcSem.Word, state: TxnState, pc: TxnPc, manager: TxnId, history: seq<Event>): State {
    Conf(FreshObject, Txn(sem, state, [], pc, {}, [], false, true, [], 0), LateTask(LookedUp), {}, manager, history)
  }

  function Running(pc: TxnPc, manager: TxnId): State { During(TxnHeld, WaitCommit, pc, manager, []) }

  function Decided(pc: TxnPc, manager: TxnId): State { During(TxnHeld, CommittedState, pc, manager, OneEvent) }

  const Submitted := During(RwcSem.Free, WaitCommit, Removed(true), 0, [])
  const Raised := During(RwcSem.Word(0, false, true, false), WaitCommit, Waiting(true), 0, [])
  const AllDone := During(RwcSem.Free, CommittedState, Finished, 0, OneEvent)

  /** The task before the submission. */
  function Early(pc: Pc): State { Conf(FreshObject, NewTxn, LateTask(pc), {1}, 0, []) }

  /** The task that has joined after the end. */
  function Late(ob: Object, pc: Pc): State { Conf(ob, JoinedTxn([], []), LateTask(pc), {}, 0, OneEvent) }

  const LateWritten :=
    Conf(WriteTaken.(num := Number(0, 5, 1)),
         JoinedTxn([Group(1, [1])], [Entry(1, Set(5), NoReply)]),
         LateTask(Written), {}, 0, OneEvent)

  function JoinedTxn(groups: seq<Group>, log: seq<Entry>): Txn {
    Txn(RwcSem.Word(1, false, false, false), CommittedState, groups, Finished, {0}, log, false, true, [], 0)
  }

  const WriteTaken: Object := FreshObject.(sem := RwcSem.Word(0, true, false, false), holder := TaskHolder(0))

  const LateStart := State(map[1 := FreshObject], map[], map[], {}, 0, [], [])
  const LateCreated := State(map[1 := FreshObject], map[1 := NewTxn], map[], {1}, 0, [], [])

  function LateOpening(): seq<Step> {
    [Issue(0, 1, 1, LateKind),
     LookUp(0),
     Submit(1, true),
     RaiseTxnCommit(1),
     AcquireTxn(1),
     TakeManager(1),
     Check(1),
     Mark(1),
     DropManager(1),
     LockObject(1),
     ApplyAtom(1),
     CommitObject(1)]
  }

  function LateEnding(): seq<Step> {
    [Decide(1),
     TakeManager(1),
     ReleaseObject(1),
     DropManager(1),
     CloseTxn(1),
     Join(0),
     Gate(0),
     GrabWrite(0),
     Write(0)]
  }

  function LateOpeningStates(): seq<State> {
    [Early(Issued),
     Early(LookedUp),
     Submitted,
     Raised,
     Running(AtBarrier(true), 0),
     Running(Checking(true, 0), 1),
     Running(Marking(true, 0), 1),
     Running(BarrierTaken(true), 1),
     Running(Locking(true, 0), 0),
     Running(Applying(true, 0), 0),
     Running(Committing(true, 0), 0),
     Running(Deciding(true), 0)]
  }

  function LateEndingStates(): seq<State> {
    [Decided(Ending, 0),
     Decided(Releasing(0), 1),
     Decided(Released, 1),
     Decided(Closing, 0),
     AllDone,
     Late(FreshObject, Ready),
     Late(FreshObject, PastGate),
     Late(WriteTaken, WriteHeld),
     LateWritten]
  }

  lemma Replaced<T>(a: T, b: T)
    ensures map[1 := a][1 := b] == map[1 := b] && map[0 := a][0 := b] == map[0 := b]
  {
  }

  /** The transaction changes and nothing else. */
  lemma MovesOn(a: State, b: State)
    requires 1 in a.txns && 1 in b.txns
    ensures map[1 := a.txns[1]][1 := b.txns[1]] == map[1 := b.txns[1]]
  {
    Replaced(a.txns[1], b.txns[1]);
  }

  lemma EntrySteps()
    ensures Initial(LateStart) && Next(LateStart, Create(1), LateCreated)
    ensures Next(LateCreated, Issue(0, 1, 1, LateKind), Early(Issued))
    ensures Next(Early(Issued), LookUp(0), Early(LookedUp))
  {
    Replaced(LateTask(Issued), LateTask(LookedUp));
  }

  lemma SubmitStep()
    ensures Next(Early(LookedUp), Submit(1, true), Submitted)
  {
    MovesOn(Early(LookedUp), Submitted);
  }

  lemma RaiseStep()
    ensures Next(Submitted, RaiseTxnCommit(1), Raised)
  {
    MovesOn(Submitted, Raised);
  }

  lemma AcquireStep()
    ensures Next(Raised, AcquireTxn(1), Running(AtBarrier(true), 0))
  {
    MovesOn(Raised, Running(AtBarrier(true), 0));
  }

  lemma CheckSteps()
    ensures Next(Running(AtBarrier(true), 0), TakeManager(1), Running(Checking(true, 0), 1))
    ensures Next(Running(Checking(true, 0), 1), Check(1), Running(Marking(true, 0), 1))
  {
    MovesOn(Running(AtBarrier(true), 0), Running(Checking(true, 0), 1));
    MovesOn(Running(Checking(true, 0), 1), Running(Marking(true, 0), 1));
  }

  lemma MarkSteps()
    ensures Next(Running(Marking(true, 0), 1), Mark(1), Running(BarrierTaken(true), 1))
    ensures Next(Running(BarrierTaken(true), 1), DropManager(1), Running(Locking(true, 0), 0))
  {
    MovesOn(Running(Marking(true, 0), 1), Running(BarrierTaken(true), 1));
    MovesOn(Running(BarrierTaken(true), 1), Running(Locking(true, 0), 0));
  }

  lemma LockSteps()
    ensures Next(Running(Locking(true, 0), 0), LockObject(1), Running(Applying(true, 0), 0))
  {
    MovesOn(Running(Locking(true, 0), 0), Running(Applying(true, 0), 0));
  }

  lemma ApplySteps()
    ensures Next(Running(Applying(true, 0), 0), ApplyAtom(1), Running(Committing(true, 0), 0))
    ensures Next(Running(Committing(true, 0), 0), CommitObject(1), Running(Deciding(true), 0))
  {
    MovesOn(Running(Applying(true, 0), 0), Running(Committing(true, 0), 0));
    MovesOn(Running(Committing(true, 0), 0), Running(Deciding(true), 0));
  }

  lemma DecideSteps()
    ensures Next(Running(Deciding(true), 0), Decide(1), Decided(Ending, 0))
    ensures Next(Decided(Ending, 0), TakeManager(1), Decided(Releasing(0), 1))
  {
    MovesOn(Running(Deciding(true), 0), Decided(Ending, 0));
    MovesOn(Decided(Ending, 0), Decided(Releasing(0), 1));
  }

  lemma ReleaseSteps()
    ensures Next(Decided(Releasing(0), 1), ReleaseObject(1), Decided(Released, 1))
    ensures Next(Decided(Released, 1), DropManager(1), Decided(Closing, 0))
  {
    MovesOn(Decided(Releasing(0), 1), Decided(Released, 1));
    MovesOn(Decided(Released, 1), Decided(Closing, 0));
  }

  lemma CloseSteps()
    ensures Next(Decided(Closing, 0), CloseTxn(1), AllDone)
  {
    MovesOn(Decided(Closing, 0), AllDone);
  }

  lemma LateEntrySteps()
    ensures Next(AllDone, Join(0), Late(FreshObject, Ready))
    ensures Next(Late(FreshObject, Ready), Gate(0), Late(FreshObject, PastGate))
  {
    var before, entered := AllDone, Late(FreshObject, Ready);
    var joined: set<TaskId> := {};
    assert joined + {0} == {0};
    Replaced(before.tasks[0], entered.tasks[0]);
    Replaced(before.txns[1], entered.txns[1]);
    Replaced(entered.tasks[0], LateTask(PastGate));
  }

  lemma LateGrabStep()
    ensures Next(Late(FreshObject, PastGate), GrabWrite(0), Late(WriteTaken, WriteHeld))
  {
    Replaced(LateTask(PastGate), LateTask(WriteHeld));
    Replaced(FreshObject, WriteTaken);
  }

  lemma LateWriteStep()
    ensures Next(Late(WriteTaken, WriteHeld), Write(0), LateWritten)
  {
    var e := Entry(1, Set(5), NoReply);
    assert [] + [e] == [e] && AddAtom([], 1, 1) == [Group(1, [1])];
    Replaced(LateTask(WriteHeld), LateTask(Written));
    Replaced(WriteTaken, WriteTaken.(num := Number(0, 5, 1)));
    Replaced(JoinedTxn([], []), JoinedTxn([Group(1, [1])], [e]));
  }

  lemma OpeningSteps()
    ensures var a, through := LateOpening()[1..], LateOpeningStates();
            && |through| == |a| + 1 == 12
            && forall i | 0 <= i < |a| :: Next(through[i], a[i], through[i + 1])
  {
    EntrySteps();
    SubmitStep();
    RaiseStep();
    AcquireStep();
    CheckSteps();
    MarkSteps();
    LockSteps();
    ApplySteps();
    hide Next, During, Conf, Running, Decided, Early, Late;
  }

  lemma EndingSteps()
    ensures var a, through := LateEnding()[1..], LateEndingStates();
            && |through| == |a| + 1 == 9
            && forall i | 0 <= i < |a| :: Next(through[i], a[i], through[i + 1])
  {
    DecideSteps();
    ReleaseSteps();
    CloseSteps();
    LateEntrySteps();
    LateGrabStep();
    LateWriteStep();
    hide Next, During, Conf, Running, Decided, Early, Late;
  }

  /** Two runs, one after the other, with a step between them. */
  lemma Chain(first: seq<State>, a: seq<Step>, between: Step, second: seq<State>, b: seq<Step>)
    requires |first| == |a| + 1 && |second| == |b| + 1
    requires forall i | 0 <= i < |a| :: Next(first[i], a[i], first[i + 1])
    requires forall i | 0 <= i < |b| :: Next(second[i], b[i], second[i + 1])
    requires Next(first[|a|], between, second[0])
    ensures var states, steps := first + second, a + [between] + b;
            forall i | 0 <= i < |steps| :: Next(states[i], steps[i], states[i + 1])
  {
    hide Next;
  }

  function LateStates(): seq<State> { [LateStart, LateCreated] + LateOpeningStates() + LateEndingStates() }

  function LateSteps(): seq<Step> {
    [Create(1)] + [LateOpening()[0]] + LateOpening()[1..] + [LateEnding()[0]] + LateEnding()[1..]
  }

  /** The number belongs to the transaction, which has finished. */
  predicate OwnedByFinished(s: State) {
    1 in s.objs && 1 in s.txns && s.txns[1].pc.Finished? && s.objs[1].num.owner == 1
  }

  lemma Corners()
    ensures LateOpeningStates()[0] == Early(Issued)
    ensures LateOpeningStates()[11] == Running(Deciding(true), 0) && LateEndingStates()[0] == Decided(Ending, 0)
    ensures LateOpening()[0] == Issue(0, 1, 1, LateKind) && LateEnding()[0] == Decide(1)
    ensures |LateEndingStates()| == |LateEnding()| == 9 && |LateOpeningStates()| == |LateOpening()| == 12
    ensures OwnedByFinished(LateEndingStates()[8])
  {
  }

  lemma LateRun()
    ensures |LateStates()| == |LateSteps()| + 1
    ensures forall i | 0 <= i < |LateSteps()| :: Next(LateStates()[i], LateSteps()[i], LateStates()[i + 1])
    ensures Initial(LateStates()[0]) && OwnedByFinished(LateStates()[|LateSteps()|])
  {
    hide Next, Initial, During, Conf, LateOpening, LateEnding, LateOpeningStates, LateEndingStates, OwnedByFinished;
    EntrySteps();
    DecideSteps();
    OpeningSteps();
    EndingSteps();
    Corners();
    var start := [LateStart, LateCreated];
    Chain(start, [Create(1)], LateOpening()[0], LateOpeningStates(), LateOpening()[1..]);
    var steps := [Create(1)] + [LateOpening()[0]] + LateOpening()[1..];
    Chain(start + LateOpeningStates(), steps, LateEnding()[0], LateEndingStates(), LateEnding()[1..]);
  }

  /** Without the scope condition on the write, ownership is lost: the run below is made of steps of
      the protocol, and ends with a number owned by a finished transaction. */
  lemma LateJoinBreaksOwnership()
    ensures exists states: seq<State>, steps: seq<Step> ::
              && |states| == |steps| + 1 && Initial(states[0])
              && (forall i | 0 <= i < |steps| :: Next(states[i], steps[i], states[i + 1]))
              && OwnedByFinished(states[|steps|])
  {
    hide Next, Initial, LateStates, LateSteps, OwnedByFinished;
    LateRun();
    var states, steps := LateStates(), LateSteps();
    assert Initial(states[0]);
  }
}
