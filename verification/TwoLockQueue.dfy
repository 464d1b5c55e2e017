/** The queue with one lock for each end: linked nodes with a dummy at the head, and any number
    of pushers and poppers interleaved step by step. Freed memory may be used again. */
module TwoLockQueue {
  import opened Common

  type Thread = nat
  type NodeId = nat
  type Data = nat

  /** A pointer to data; None is the null pointer. */
  datatype Node = Node(next: Option<NodeId>, data: Option<Data>)

  datatype Pc =
    | Idle
    | PushReady(node: NodeId)        // node allocated and filled, its next cleared
    | PushLocked(node: NodeId)       // holds the tail lock
    | Linked(node: NodeId)           // tail->next stored, tail not
    | Pushed
    | PopLocked                      // holds the head lock
    | GotHead(node: NodeId)          // node = head
    | GotNext(node: NodeId, new_head: NodeId)
    | GotData(node: NodeId, new_head: NodeId, data: Option<Data>)
    | Moved(node: NodeId, data: Option<Data>)
    | Empty                          // next was null
    | Freeing(node: NodeId)          // lock released, data was not null

  /** The last three fields are history variables: the nodes from head on, what was pushed in
      link order, and how many nodes the head has moved over; `popped` is what the pops hand
      out, in the order in which they move the head. */
  datatype State = State(
    nodes: map<NodeId, Node>,
    head: NodeId,
    tail: NodeId,
    hlock: Option<Thread>,
    tlock: Option<Thread>,
    pcs: map<Thread, Pc>,
    popped: seq<Data>,
    live: seq<NodeId>,
    pushed: seq<Option<Data>>,
    moved: nat)

  datatype Step =
    | Alloc(t: Thread, node: NodeId, data: Option<Data>)
    | LockTail(t: Thread)
    | Link(t: Thread)
    | SetTail(t: Thread)
    | UnlockTail(t: Thread)
    | LockHead(t: Thread)
    | ReadHead(t: Thread)
    | ReadNext(t: Thread)
    | ReadData(t: Thread)
    | MoveHead(t: Thread)
    | UnlockHead(t: Thread)
    | Free(t: Thread)

  function Go(s: State, t: Thread, pc: Pc): State { s.(pcs := s.pcs[t := pc]) }

  predicate Next(s: State, step: Step, s': State) {
    step.t in s.pcs &&
    var t, pc := step.t, s.pcs[step.t];
    match step
    case Alloc(_, node, data) =>
      pc.Idle? && node !in s.nodes && s' == Go(s, t, PushReady(node)).(nodes := s.nodes[node := Node(None, data)])
    case LockTail(_) => pc.PushReady? && s.tlock == None && s' == Go(s, t, PushLocked(pc.node)).(tlock := Some(t))
    case Link(_) =>
      && pc.PushLocked? && s.tail in s.nodes && pc.node in s.nodes
      && s' == Go(s, t, Linked(pc.node)).(nodes := s.nodes[s.tail := s.nodes[s.tail].(next := Some(pc.node))],
                                         live := s.live + [pc.node],
                                         pushed := s.pushed + [s.nodes[pc.node].data])
    case SetTail(_) => pc.Linked? && s' == Go(s, t, Pushed).(tail := pc.node)
    case UnlockTail(_) => pc.Pushed? && s' == Go(s, t, Idle).(tlock := None)
    case LockHead(_) => pc.Idle? && s.hlock == None && s' == Go(s, t, PopLocked).(hlock := Some(t))
    case ReadHead(_) => pc.PopLocked? && s' == Go(s, t, GotHead(s.head))
    case ReadNext(_) =>
      && pc.GotHead? && pc.node in s.nodes
      && s' == Go(s, t, match s.nodes[pc.node].next case None => Empty case Some(m) => GotNext(pc.node, m))
    case ReadData(_) =>
      pc.GotNext? && pc.new_head in s.nodes && s' == Go(s, t, GotData(pc.node, pc.new_head, s.nodes[pc.new_head].data))
    case MoveHead(_) =>
      && pc.GotData?
      && s' == Go(s, t, Moved(pc.node, pc.data)).(head := pc.new_head, moved := s.moved + 1,
                                                 live := if s.live == [] then [] else s.live[1..],
                                                 popped := s.popped + if pc.data.Some? then [pc.data.value] else [])
    case UnlockHead(_) =>
      && (pc.Moved? || pc.Empty?)
      && s' == Go(s, t, if pc.Moved? && pc.data.Some? then Freeing(pc.node) else Idle).(hlock := None)
    case Free(_) => pc.Freeing? && pc.node in s.nodes && s' == Go(s, t, Idle).(nodes := s.nodes - {pc.node})
  }

  // ------------------------------------------------------------------ the invariant

  predicate HoldsTail(pc: Pc) { pc.PushLocked? || pc.Linked? || pc.Pushed? }
  predicate HoldsHead(pc: Pc) { pc.PopLocked? || pc.GotHead? || pc.GotNext? || pc.GotData? || pc.Moved? || pc.Empty? }

  /** The node only this thread knows. */
  function Own(pc: Pc): Option<NodeId> {
    match pc
    case PushReady(n) => Some(n)
    case PushLocked(n) => Some(n)
    case Moved(n, _) => Some(n)
    case Freeing(n) => Some(n)
    case _ => None
  }

  /** The nodes from the head on form one list, ended by null. */
  predicate ListOk(s: State) {
    && s.live != [] && s.head == s.live[0]
    && (forall i | 0 <= i < |s.live| :: s.live[i] in s.nodes)
    && (forall i, j | 0 <= i < j < |s.live| :: s.live[i] != s.live[j])
    && (forall i, j | 0 <= i < j == i + 1 < |s.live| :: s.nodes[s.live[i]].next == Some(s.live[j]))
    && s.nodes[s.live[|s.live| - 1]].next == None
  }

  /** The list holds what was pushed and not passed by the head. */
  predicate ValuesOk(s: State) {
    && |s.pushed| + 1 == s.moved + |s.live|
    && (forall i | 1 <= i < |s.live| :: s.live[i] in s.nodes && s.nodes[s.live[i]].data == s.pushed[s.moved + i - 1])
    && s.moved <= |s.pushed| && s.popped == NonNull(s.pushed[..s.moved])
  }

  function NonNull(values: seq<Option<Data>>): seq<Data> {
    if values == [] then []
    else NonNull(values[..|values| - 1])
         + (if values[|values| - 1].Some? then [values[|values| - 1].value] else [])
  }

  predicate ThreadOk(s: State, t: Thread)
    requires t in s.pcs
  {
    var pc := s.pcs[t];
    && (s.tlock == Some(t) <==> HoldsTail(pc))
    && (s.hlock == Some(t) <==> HoldsHead(pc))
    && (Own(pc).Some? ==> Own(pc).value in s.nodes && Own(pc).value !in s.live)
    && (pc.PushReady? || pc.PushLocked? ==> s.nodes[pc.node].next == None)
    && (pc.Linked? ==> s.live != [] && pc.node == s.live[|s.live| - 1])
    && (pc.GotHead? || pc.GotNext? || pc.GotData? ==> pc.node == s.head)
    && (pc.GotNext? || pc.GotData? ==> |s.live| > 1 && pc.new_head == s.live[1])
    && (pc.GotData? ==> pc.new_head in s.nodes && pc.data == s.nodes[pc.new_head].data)
  }

  predicate TailOk(s: State) {
    (forall t | t in s.pcs :: !s.pcs[t].Linked?) ==> s.live != [] && s.tail == s.live[|s.live| - 1]
  }

  predicate OwnsApart(s: State) {
    forall t, u | t in s.pcs && u in s.pcs && t != u && Own(s.pcs[t]).Some? :: Own(s.pcs[t]) != Own(s.pcs[u])
  }

  predicate Inv(s: State) {
    && ListOk(s) && ValuesOk(s) && TailOk(s) && OwnsApart(s)
    && (forall t | t in s.pcs :: ThreadOk(s, t))
    && (s.tlock.Some? ==> s.tlock.value in s.pcs) && (s.hlock.Some? ==> s.hlock.value in s.pcs)
  }

  lemma AllocList(s: State, t: Thread, node: NodeId, data: Option<Data>, s': State)
    requires Inv(s) && Next(s, Alloc(t, node, data), s')
    ensures ListOk(s') && ValuesOk(s')
  {
    hide OwnsApart, TailOk, ThreadOk;
  }

  lemma AllocThreads(s: State, t: Thread, node: NodeId, data: Option<Data>, s': State)
    requires Inv(s) && Next(s, Alloc(t, node, data), s')
    ensures TailOk(s') && OwnsApart(s') && forall u | u in s'.pcs :: ThreadOk(s', u)
  {
    forall u | u in s'.pcs ensures ThreadOk(s', u) { assert ThreadOk(s, u); }
    forall u | u in s.pcs ensures Own(s.pcs[u]) != Some(node) { assert ThreadOk(s, u); }
    hide ListOk, ValuesOk, ThreadOk;
    if forall u | u in s'.pcs :: !s'.pcs[u].Linked? { NobodyLinked(s, t, s'); }
  }

  lemma AllocKeeps(s: State, t: Thread, node: NodeId, data: Option<Data>, s': State)
    requires Inv(s) && Next(s, Alloc(t, node, data), s')
    ensures Inv(s')
  {
    hide ListOk, ValuesOk, OwnsApart, TailOk, ThreadOk;
    AllocList(s, t, node, data, s');
    AllocThreads(s, t, node, data, s');
  }

  /** A thread that neither enters nor leaves the Linked state. */
  lemma NobodyLinked(s: State, t: Thread, s': State)
    requires t in s.pcs && t in s'.pcs && s'.pcs == s.pcs[t := s'.pcs[t]] && !s.pcs[t].Linked?
    requires forall u | u in s'.pcs :: !s'.pcs[u].Linked?
    ensures forall u | u in s.pcs :: !s.pcs[u].Linked?
  {
    forall u | u in s.pcs ensures !s.pcs[u].Linked? { assert u in s'.pcs; }
  }

  /** A thread takes or leaves a lock. */
  predicate LockTurn(was: Option<Thread>, t: Thread, now: Option<Thread>) {
    now == was || (was == None && now == Some(t)) || (was == Some(t) && now == None)
  }

  lemma MoveThreads(s: State, t: Thread, pc: Pc, s': State)
    requires Inv(s) && t in s.pcs && t in s'.pcs
    requires s' == Go(s, t, pc).(hlock := s'.hlock, tlock := s'.tlock)
    requires ThreadOk(s', t)
    requires LockTurn(s.hlock, t, s'.hlock) && LockTurn(s.tlock, t, s'.tlock)
    ensures forall u | u in s'.pcs :: ThreadOk(s', u)
  {
    hide ListOk, ValuesOk, TailOk, OwnsApart;
    forall u | u in s'.pcs ensures ThreadOk(s', u) { assert ThreadOk(s, u); }
  }

  lemma MoveTail(s: State, t: Thread, pc: Pc, s': State)
    requires TailOk(s) && t in s.pcs && t in s'.pcs
    requires s' == Go(s, t, pc).(hlock := s'.hlock, tlock := s'.tlock)
    requires !s.pcs[t].Linked? && !pc.Linked?
    ensures TailOk(s')
  {
    if forall u | u in s'.pcs :: !s'.pcs[u].Linked? { NobodyLinked(s, t, s'); }
  }

  /** Steps that move one thread and change at most the locks. */
  lemma MoveKeeps(s: State, t: Thread, pc: Pc, s': State)
    requires Inv(s) && t in s.pcs && t in s'.pcs
    requires s' == Go(s, t, pc).(hlock := s'.hlock, tlock := s'.tlock)
    requires !s.pcs[t].Linked? && !pc.Linked?
    requires ThreadOk(s', t)
    requires Own(pc).Some? ==> Own(pc) == Own(s.pcs[t])
    requires LockTurn(s.hlock, t, s'.hlock) && LockTurn(s.tlock, t, s'.tlock)
    ensures Inv(s')
  {
    hide ThreadOk, TailOk;
    MoveThreads(s, t, pc, s');
    MoveTail(s, t, pc, s');
  }

  lemma LinkKeeps(s: State, t: Thread, s': State)
    requires Inv(s) && Next(s, Link(t), s')
    ensures Inv(s')
  {
    LinkList(s, t, s');
    LinkValues(s, t, s');
    LinkThreads(s, t, s');
  }

  /** Holding the tail lock, a thread before its store finds the tail at the end of the list. */
  lemma TailIsLast(s: State, t: Thread)
    requires Inv(s) && t in s.pcs && (s.pcs[t].PushLocked? || s.pcs[t].Pushed?)
    ensures s.tail == s.live[|s.live| - 1]
  {
    forall u | u in s.pcs ensures !s.pcs[u].Linked? { assert ThreadOk(s, u) && ThreadOk(s, t); }
  }

  lemma LinkList(s: State, t: Thread, s': State)
    requires Inv(s) && Next(s, Link(t), s')
    ensures ListOk(s')
  {
    TailIsLast(s, t);
    assert ThreadOk(s, t);
  }

  lemma LinkValues(s: State, t: Thread, s': State)
    requires Inv(s) && Next(s, Link(t), s')
    ensures ValuesOk(s')
  {
    TailIsLast(s, t);
    assert ThreadOk(s, t);
    assert s'.pushed[..s'.moved] == s.pushed[..s.moved];
  }

  lemma LinkThreads(s: State, t: Thread, s': State)
    requires Inv(s) && Next(s, Link(t), s')
    ensures TailOk(s') && OwnsApart(s') && forall u | u in s'.pcs :: ThreadOk(s', u)
  {
    TailIsLast(s, t);
    assert ThreadOk(s, t);
    forall u | u in s'.pcs ensures ThreadOk(s', u) { assert ThreadOk(s, u); }
    assert s'.pcs[t].Linked?;
  }

  lemma SetTailKeeps(s: State, t: Thread, s': State)
    requires Inv(s) && Next(s, SetTail(t), s')
    ensures Inv(s')
  {
    assert ThreadOk(s, t);
    forall u | u in s'.pcs ensures ThreadOk(s', u) { assert ThreadOk(s, u); }
  }

  /** The thread about to move the head has the head and the node after it. */
  lemma MovesToSecond(s: State, t: Thread)
    requires Inv(s) && t in s.pcs && s.pcs[t].GotData?
    ensures |s.live| > 1 && s.pcs[t].new_head == s.live[1] && s.live[1] in s.nodes
            && s.pcs[t].data == s.nodes[s.live[1]].data
  {
    assert ThreadOk(s, t);
  }

  lemma MoveHeadList(s: State, t: Thread, s': State)
    requires Inv(s) && Next(s, MoveHead(t), s')
    ensures ListOk(s')
  {
    hide OwnsApart, TailOk, ThreadOk, ValuesOk;
    MovesToSecond(s, t);
    assert s.live == [s.live[0]] + s'.live;
  }

  lemma MoveHeadValues(s: State, t: Thread, s': State)
    requires Inv(s) && Next(s, MoveHead(t), s')
    ensures ValuesOk(s')
  {
    hide OwnsApart, TailOk, ThreadOk, ListOk;
    MovesToSecond(s, t);
    assert s.live == [s.live[0]] + s'.live;
    assert s'.pushed[..s'.moved] == s.pushed[..s.moved] + [s.pushed[s.moved]];
  }

  lemma MoveHeadThreads(s: State, t: Thread, s': State)
    requires Inv(s) && Next(s, MoveHead(t), s')
    ensures TailOk(s') && OwnsApart(s') && forall u | u in s'.pcs :: ThreadOk(s', u)
  {
    hide ValuesOk;
    assert ThreadOk(s, t);
    assert s.live == [s.live[0]] + s'.live;
    forall u | u in s'.pcs ensures ThreadOk(s', u) { assert ThreadOk(s, u); }
    forall u | u in s.pcs ensures Own(s.pcs[u]) != Some(s.head) { assert ThreadOk(s, u); }
    if forall u | u in s'.pcs :: !s'.pcs[u].Linked? { NobodyLinked(s, t, s'); }
  }

  lemma MoveHeadKeeps(s: State, t: Thread, s': State)
    requires Inv(s) && Next(s, MoveHead(t), s')
    ensures Inv(s')
  {
    hide ListOk, ValuesOk, OwnsApart, TailOk, ThreadOk;
    MoveHeadList(s, t, s');
    MoveHeadValues(s, t, s');
    MoveHeadThreads(s, t, s');
  }

  lemma FreesOutside(s: State, t: Thread)
    requires Inv(s) && t in s.pcs && s.pcs[t].Freeing?
    ensures s.pcs[t].node !in s.live
  {
    assert ThreadOk(s, t);
  }

  lemma FreeList(s: State, t: Thread, s': State)
    requires Inv(s) && Next(s, Free(t), s')
    ensures ListOk(s') && ValuesOk(s')
  {
    hide OwnsApart, TailOk, ThreadOk;
    FreesOutside(s, t);
  }

  lemma FreeThreads(s: State, t: Thread, s': State)
    requires Inv(s) && Next(s, Free(t), s')
    ensures TailOk(s') && OwnsApart(s') && forall u | u in s'.pcs :: ThreadOk(s', u)
  {
    hide ValuesOk;
    assert ThreadOk(s, t);
    forall u | u in s'.pcs ensures ThreadOk(s', u) { assert ThreadOk(s, u); }
    if forall u | u in s'.pcs :: !s'.pcs[u].Linked? { NobodyLinked(s, t, s'); }
  }

  lemma FreeKeeps(s: State, t: Thread, s': State)
    requires Inv(s) && Next(s, Free(t), s')
    ensures Inv(s')
  {
    hide ListOk, ValuesOk, OwnsApart, TailOk, ThreadOk;
    FreeList(s, t, s');
    FreeThreads(s, t, s');
  }

  lemma ReadNextKeeps(s: State, t: Thread, s': State)
    requires Inv(s) && Next(s, ReadNext(t), s')
    ensures Inv(s')
  {
    assert ThreadOk(s, t);
    if |s.live| > 1 { assert s.nodes[s.live[0]].next == Some(s.live[1]); }
    MoveKeeps(s, t, s'.pcs[t], s');
  }

  lemma OtherKeeps(s: State, step: Step, s': State)
    requires Inv(s) && Next(s, step, s')
    requires step.LockTail? || step.UnlockTail? || step.LockHead? || step.ReadHead? || step.ReadData?
             || step.UnlockHead?
    ensures Inv(s')
  {
    hide ListOk, ValuesOk, TailOk, OwnsApart;
    assert ThreadOk(s, step.t);
    MoveKeeps(s, step.t, s'.pcs[step.t], s');
  }

  lemma Preserved(s: State, step: Step, s': State)
    requires Inv(s) && Next(s, step, s')
    ensures Inv(s')
  {
    hide Inv, Next;
    match step
    case Alloc(t, node, data) => AllocKeeps(s, t, node, data, s');
    case Link(t) => LinkKeeps(s, t, s');
    case SetTail(t) => SetTailKeeps(s, t, s');
    case ReadNext(t) => ReadNextKeeps(s, t, s');
    case MoveHead(t) => MoveHeadKeeps(s, t, s');
    case Free(t) => FreeKeeps(s, t, s');
    case _ => OtherKeeps(s, step, s');
  }

  /** z_atomic_queue_alloc, which leaves the link of the dummy node as it finds it in memory. */
  predicate Initial(s: State, dummy: NodeId, link: Option<NodeId>) {
    && s.nodes == map[dummy := Node(link, None)] && s.head == dummy && s.tail == dummy
    && s.hlock == None && s.tlock == None && (forall t | t in s.pcs :: s.pcs[t] == Idle)
    && s.popped == [] && s.live == [dummy] && s.pushed == [] && s.moved == 0
  }

  predicate Run(states: seq<State>, steps: seq<Step>, dummy: NodeId, link: Option<NodeId>) {
    && |states| == |steps| + 1 && Initial(states[0], dummy, link)
    && forall i | 0 <= i < |steps| :: Next(states[i], steps[i], states[i + 1])
  }

  lemma {:induction false} Reached(states: seq<State>, steps: seq<Step>, dummy: NodeId, i: nat)
    requires Run(states, steps, dummy, None) && i < |states|
    ensures Inv(states[i])
  {
    if i > 0 {
      Reached(states, steps, dummy, i - 1);
      hide Inv, Next, Initial;
      Preserved(states[i - 1], steps[i - 1], states[i]);
    }
  }

  // ------------------------------------------------------------- what it comes to

  /** What was popped is a prefix of the non-null values pushed, in link order: nothing is lost,
      repeated or overtaken. What is missing is still in the list. */
  predicate InOrder(s: State) {
    && s.popped <= NonNull(s.pushed)
    && s.moved <= |s.pushed|
    && NonNull(s.pushed) == s.popped + NonNull(s.pushed[s.moved..])
    && |s.live| == |s.pushed| - s.moved + 1
    && forall k | 1 <= k < |s.live| :: s.live[k] in s.nodes && s.nodes[s.live[k]].data == s.pushed[s.moved..][k - 1]
  }

  /** The pop that reads the link of the head finds nothing exactly when the head has passed every
      node linked so far. */
  predicate EmptyIfPassed(s: State, step: Step, s': State) {
    step.ReadNext? ==> step.t in s'.pcs && (s'.pcs[step.t].Empty? <==> s.moved == |s.pushed|)
  }

  /** The thread is not about to follow a pointer to memory that was freed: neither the tail it
      links to, nor the head it reads, nor the node after it, nor the node it frees. */
  predicate Undangling(s: State, t: Thread)
    requires t in s.pcs
  {
    match s.pcs[t]
    case PushLocked(n) => s.tail in s.nodes && n in s.nodes && n != s.tail
    case GotHead(n) => n in s.nodes
    case GotNext(n, m) => m in s.nodes && m != n
    case Freeing(n) => n in s.nodes && n !in s.live && forall u | u in s.pcs && u != t :: Own(s.pcs[u]) != Some(n)
    case _ => true
  }

  lemma InOrderFromNull(states: seq<State>, steps: seq<Step>, dummy: NodeId, i: nat)
    requires Run(states, steps, dummy, None) && i < |states|
    ensures InOrder(states[i])
  {
    Reached(states, steps, dummy, i);
    var s := states[i];
    NonNullConcat(s.pushed[..s.moved], s.pushed[s.moved..]);
    assert s.pushed == s.pushed[..s.moved] + s.pushed[s.moved..];
  }

  lemma {:induction false} NonNullConcat(a: seq<Option<Data>>, b: seq<Option<Data>>)
    ensures NonNull(a + b) == NonNull(a) + NonNull(b)
  {
    if b == [] {
      assert a + b == a;
    } else {
      assert (a + b)[..|a + b| - 1] == a + b[..|b| - 1];
      NonNullConcat(a, b[..|b| - 1]);
    }
  }

  lemma EmptyFromNull(states: seq<State>, steps: seq<Step>, dummy: NodeId, i: nat)
    requires Run(states, steps, dummy, None) && i < |steps|
    ensures EmptyIfPassed(states[i], steps[i], states[i + 1])
  {
    Reached(states, steps, dummy, i);
    var s := states[i];
    assert Next(s, steps[i], states[i + 1]);
    assert ThreadOk(s, steps[i].t);
    if |s.live| > 1 { assert s.nodes[s.live[0]].next == Some(s.live[1]); }
  }

  lemma UndanglingFromNull(states: seq<State>, steps: seq<Step>, dummy: NodeId, i: nat, t: Thread)
    requires Run(states, steps, dummy, None) && i < |states| && t in states[i].pcs
    ensures Undangling(states[i], t)
  {
    Reached(states, steps, dummy, i);
    var s := states[i];
    assert ThreadOk(s, t);
    if s.pcs[t].PushLocked? { TailIsLast(s, t); }
  }

  // -------------------------------------------------- a dummy node with a link left in it

  /** The new queue, with two threads. */
  function Fresh(dummy: NodeId, link: Option<NodeId>): State {
    State(map[dummy := Node(link, None)], dummy, dummy, None, None, map[0 := Idle, 1 := Idle], [], [dummy], [], 0)
  }

  function FirstPop(dummy: NodeId, m: NodeId): seq<State> {
    var s0 := Fresh(dummy, Some(m));
    var s1 := Go(s0, 0, PopLocked).(hlock := Some(0));
    var s2 := Go(s1, 0, GotHead(dummy));
    [s0, s1, s2, Go(s2, 0, GotNext(dummy, m))]
  }

  const FirstPopSteps: seq<Step> := [LockHead(0), ReadHead(0), ReadNext(0)]

  /** The first pop of the empty queue takes the link for a node. Unless the dummy node is linked to
      itself, the data it reads next is outside all nodes. */
  lemma WildPop(dummy: NodeId, m: NodeId)
    ensures var states := FirstPop(dummy, m);
            && Run(states, FirstPopSteps, dummy, Some(m))
            && states[3].pushed == [] && states[3].moved == 0 && 0 in states[3].pcs
            && states[3].pcs[0] == GotNext(dummy, m) && (m != dummy ==> m !in states[3].nodes)
  {
  }

  /** The run goes on: the second thread is given that memory for a node of its own. */
  function EarlyPop(dummy: NodeId, m: NodeId, data: Data): seq<State> {
    var s3 := FirstPop(dummy, m)[3];
    var s4 := Go(s3, 1, PushReady(m)).(nodes := s3.nodes[m := Node(None, Some(data))]);
    var s5 := Go(s4, 0, GotData(dummy, m, Some(data)));
    var s6 := Go(s5, 0, Moved(dummy, Some(data))).(head := m, live := [], moved := 1, popped := [data]);
    FirstPop(dummy, m) + [s4, s5, s6]
  }

  function EarlyPopSteps(m: NodeId, data: Data): seq<Step> {
    FirstPopSteps + [Alloc(1, m, Some(data)), ReadData(0), MoveHead(0)]
  }

  /** The value is popped before it is pushed, and the head is a node that is not linked yet. */
  lemma PoppedBeforePushed(dummy: NodeId, m: NodeId, data: Data)
    requires m != dummy
    ensures var states := EarlyPop(dummy, m, data);
            && Run(states, EarlyPopSteps(m, data), dummy, Some(m))
            && states[6].popped == [data] && states[6].pushed == [] && states[6].head == m
            && 1 in states[6].pcs && states[6].pcs[1] == PushReady(m)
  {
    WildPop(dummy, m);
    var states, steps := EarlyPop(dummy, m, data), EarlyPopSteps(m, data);
    assert Next(states[3], steps[3], states[4]);
    assert Next(states[4], steps[4], states[5]);
    assert states[5].live[1..] == [];
    assert Next(states[5], steps[5], states[6]);
    forall i | 0 <= i < 3 ensures Next(states[i], steps[i], states[i + 1]) {
      assert Next(FirstPop(dummy, m)[i], FirstPopSteps[i], FirstPop(dummy, m)[i + 1]);
    }
  }

  /** A dummy node linked to itself: the head moves over a node nobody pushed. */
  function SelfPop(dummy: NodeId): seq<State> {
    var s3 := FirstPop(dummy, dummy)[3];
    var s4 := Go(s3, 0, GotData(dummy, dummy, None));
    FirstPop(dummy, dummy) + [s4, Go(s4, 0, Moved(dummy, None)).(live := [], moved := 1)]
  }

  lemma SelfLinked(dummy: NodeId)
    ensures Run(SelfPop(dummy), FirstPopSteps + [ReadData(0), MoveHead(0)], dummy, Some(dummy))
    ensures SelfPop(dummy)[5].pushed == [] && SelfPop(dummy)[5].moved == 1
  {
    WildPop(dummy, dummy);
    var states, steps := SelfPop(dummy), FirstPopSteps + [ReadData(0), MoveHead(0)];
    assert Next(states[3], steps[3], states[4]);
    assert states[4].live[1..] == [];
    assert Next(states[4], steps[4], states[5]);
    forall i | 0 <= i < 3 ensures Next(states[i], steps[i], states[i + 1]) {
      assert Next(FirstPop(dummy, dummy)[i], FirstPopSteps[i], FirstPop(dummy, dummy)[i + 1]);
    }
  }

  // ------------------------------------------------------------------- if and only if

  /** The values come out in the order in which they went in, in every state of every run, if and
      only if the allocator happened to leave the link of the dummy node null. */
  lemma FirstInFirstOut(dummy: NodeId, link: Option<NodeId>)
    ensures (forall states: seq<State>, steps: seq<Step> | Run(states, steps, dummy, link) ::
               forall i | 0 <= i < |states| :: InOrder(states[i]))
            <==> link == None
  {
    hide Run, InOrder, EarlyPop, EarlyPopSteps, SelfPop;
    forall states: seq<State>, steps: seq<Step>, i: int | Run(states, steps, dummy, None) && 0 <= i < |states|
      ensures InOrder(states[i])
    {
      InOrderFromNull(states, steps, dummy, i);
    }
    if link.Some? { OutOfOrder(dummy, link.value); }
  }

  lemma OutOfOrder(dummy: NodeId, m: NodeId)
    ensures exists states, steps, i :: Run(states, steps, dummy, Some(m)) && 0 <= i < |states| && !InOrder(states[i])
  {
    hide Run;
    if m == dummy {
      SelfLinked(dummy);
      assert !InOrder(SelfPop(dummy)[5]);
    } else {
      PoppedBeforePushed(dummy, m, 0);
      assert !InOrder(EarlyPop(dummy, m, 0)[6]);
    }
  }

  /** A pop finds nothing exactly when the head has passed every node, in every run, under the same
      condition. */
  lemma EmptyExactly(dummy: NodeId, link: Option<NodeId>)
    ensures (forall states: seq<State>, steps: seq<Step> | Run(states, steps, dummy, link) ::
               forall i, j | 0 <= i < j == i + 1 < |states| ::
                 i < |steps| && EmptyIfPassed(states[i], steps[i], states[j]))
            <==> link == None
  {
    forall states: seq<State>, steps: seq<Step>, i: int | Run(states, steps, dummy, None) && 0 <= i < |steps|
      ensures EmptyIfPassed(states[i], steps[i], states[i + 1])
    {
      EmptyFromNull(states, steps, dummy, i);
    }
    if link.Some? {
      WildPop(dummy, link.value);
      var states := FirstPop(dummy, link.value);
      assert !EmptyIfPassed(states[2], FirstPopSteps[2], states[3]);
    }
  }

  /** No thread ever follows a pointer to memory that was freed, in every run, under the same
      condition. */
  lemma NoDanglingAccess(dummy: NodeId, link: Option<NodeId>)
    ensures (forall states: seq<State>, steps: seq<Step> | Run(states, steps, dummy, link) ::
               forall i, t | 0 <= i < |states| && t in states[i].pcs :: Undangling(states[i], t))
            <==> link == None
  {
    hide Run;
    forall states: seq<State>, steps: seq<Step>, i: int, t |
      Run(states, steps, dummy, None) && 0 <= i < |states| && t in states[i].pcs
      ensures Undangling(states[i], t)
    {
      UndanglingFromNull(states, steps, dummy, i, t);
    }
    if link.Some? {
      WildPop(dummy, link.value);
      var states := FirstPop(dummy, link.value);
      assert !Undangling(states[3], 0);
    }
  }
}
