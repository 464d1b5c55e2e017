/** The loops of the semaphore on 32-bit words are the loops on the fields: the reader field, read
    as a number, and the three flags. */
module RwcCode {
  import opened RwcSem

  /** The value of a 32-bit word as a number. */
  ghost function Count(x: bv32): nat
    decreases x
  {
    if x == 0 then 0 else 1 + Count(x - 1)
  }

  lemma CountBefore(x: bv32)
    ensures Count(0) == 0
    ensures x != 0 ==> Count(x) == 1 + Count(x - 1)
  {
  }

  lemma CountNext(x: bv32)
    requires x != 0xffff_ffff
    ensures Count(x + 1) == Count(x) + 1
  {
    assert x + 1 - 1 == x && x + 1 != 0;
  }

  lemma SameBefore(x: bv32, y: bv32)
    requires x - 1 == y - 1
    ensures x == y
  {
  }

  lemma {:induction false} CountInjective(x: bv32, y: bv32)
    requires Count(x) == Count(y)
    ensures x == y
    decreases Count(x)
  {
    hide Count;
    CountBefore(x);
    CountBefore(y);
    if x != 0 && y != 0 {
      CountInjective(x - 1, y - 1);
      SameBefore(x, y);
    }
  }

  // ------------------------------------------------------ the greatest reader field

  function Twice(x: bv32): bv32 { x + x }

  lemma TwiceBits(x: bv32)
    requires 0 < x < 0x8000_0000
    ensures x - 1 < 0x8000_0000
    ensures x + x != 0 && (x + x) - 1 != 0 && ((x + x) - 1) - 1 == (x - 1) + (x - 1)
  {
  }

  lemma CountTwo(y: bv32, p: bv32)
    requires y != 0 && y - 1 != 0 && (y - 1) - 1 == p
    ensures Count(y) == 2 + Count(p)
  {
    hide Count;
    CountBefore(y);
    CountBefore(y - 1);
  }

  lemma TwiceStep(x: bv32)
    requires 0 < x < 0x8000_0000
    ensures x - 1 < 0x8000_0000 && Count(x) == 1 + Count(x - 1)
    ensures Count(Twice(x)) == 2 + Count(Twice(x - 1))
  {
    hide Count;
    TwiceBits(x);
    CountTwo(x + x, (x - 1) + (x - 1));
    CountBefore(x);
  }

  lemma {:induction false} CountTwice(x: bv32)
    requires x < 0x8000_0000
    ensures Count(Twice(x)) == 2 * Count(x)
    decreases Count(x)
  {
    hide Count;
    CountBefore(x);
    if x != 0 {
      hide Twice;
      TwiceStep(x);
      CountTwice(x - 1);
    }
  }

  /** One more bit set at the low end. */
  lemma CountOne(x: bv32, y: bv32)
    requires x < 0x7fff_ffff && y == Twice(x) + 1
    ensures Count(y) == 2 * Count(x) + 1
  {
    hide Count;
    assert Twice(x) != 0xffff_ffff;
    CountTwice(x);
    CountNext(Twice(x));
  }

  /** Four more. */
  lemma CountFour(x: bv32, x1: bv32, x2: bv32, x3: bv32, x4: bv32)
    requires x < 0x7fff_ffff && x1 < 0x7fff_ffff && x2 < 0x7fff_ffff && x3 < 0x7fff_ffff
    requires x1 == Twice(x) + 1 && x2 == Twice(x1) + 1 && x3 == Twice(x2) + 1 && x4 == Twice(x3) + 1
    ensures Count(x4) == 16 * Count(x) + 15
  {
    hide Count, Twice;
    CountOne(x, x1);
    CountOne(x1, x2);
    CountOne(x2, x3);
    CountOne(x3, x4);
  }

  lemma CountMask()
    ensures Count(READERS_MASK) == MAX_READERS
  {
    hide Count;
    CountBefore(1);
    CountFour(0x1, 0x3, 0x7, 0xf, 0x1f);
    CountFour(0x1f, 0x3f, 0x7f, 0xff, 0x1ff);
    CountFour(0x1ff, 0x3ff, 0x7ff, 0xfff, 0x1fff);
    CountFour(0x1fff, 0x3fff, 0x7fff, 0xffff, 0x1_ffff);
    CountFour(0x1_ffff, 0x3_ffff, 0x7_ffff, 0xf_ffff, 0x1f_ffff);
    CountFour(0x1f_ffff, 0x3f_ffff, 0x7f_ffff, 0xff_ffff, 0x1ff_ffff);
    CountFour(0x1ff_ffff, 0x3ff_ffff, 0x7ff_ffff, 0xfff_ffff, 0x1fff_ffff);
  }

  /** How far it is to the greatest reader field. */
  ghost function Room(x: bv32): nat
    decreases !x
  {
    if x < READERS_MASK then 1 + Room(x + 1) else 0
  }

  lemma {:induction false} CountAndRoom(x: bv32)
    requires x <= READERS_MASK
    ensures Count(x) + Room(x) == MAX_READERS
    decreases Room(x)
  {
    hide Count;
    if x == READERS_MASK {
      CountMask();
    } else {
      CountNext(x);
      CountAndRoom(x + 1);
    }
  }

  // ---------------------------------------------------------------- words as fields

  ghost function FieldsOf(p: Packed): Word { Word(Count(p.readers), p.write, p.commit, p.lock) }

  ghost function Fields(x: bv32): Word { FieldsOf(Unpack(x)) }

  ghost function FieldsTurn(t: Turn<bv32>): Turn<Word> {
    match t
    case Return(r) => Return(r)
    case Cas(e, n) => Cas(Fields(e), Fields(n))
  }

  lemma FieldsEqual(p: Packed, q: Packed)
    ensures FieldsOf(p) == FieldsOf(q) <==> p == q
  {
    hide Count;
    if Count(p.readers) == Count(q.readers) { CountInjective(p.readers, q.readers); }
  }

  /** Two words with the same fields are the same word, so a compare-and-swap compares fields. */
  lemma FieldsInjective(x: bv32, y: bv32)
    requires Fields(x) == Fields(y)
    ensures x == y
  {
    hide Unpack, FieldsOf;
    FieldsEqual(Unpack(x), Unpack(y));
    UnpackIsInjective(x, y);
  }

  lemma ReadersMasked(x: bv32)
    ensures Unpack(x).readers <= READERS_MASK
  {
  }

  /** The reader field is a number of 29 bits. */
  lemma ReadersBound(x: bv32)
    ensures Fields(x).readers <= MAX_READERS
    ensures Fields(x).readers == MAX_READERS <==> Unpack(x).readers == READERS_MASK
    ensures Fields(x).readers == 0 <==> Unpack(x).readers == 0
  {
    hide Count, Unpack;
    var r := Unpack(x).readers;
    ReadersMasked(x);
    CountAndRoom(r);
    CountMask();
    CountBefore(r);
    if Count(r) == MAX_READERS { CountInjective(r, READERS_MASK); }
  }

  lemma CountsUp(x: bv32)
    ensures Fields(x + 1) == Increment(Fields(x))
  {
    hide Count, Unpack;
    CodeCounts(x);
    ReadersBound(x);
    CountBefore(0);
    var r := Unpack(x).readers;
    if r != READERS_MASK {
      ReadersMasked(x);
      BelowMask(r);
      CountNext(r);
    }
  }

  lemma BelowMask(r: bv32)
    requires r <= READERS_MASK
    ensures r != 0xffff_ffff
  {
  }

  lemma CountsDown(x: bv32)
    ensures Fields(x - 1) == Decrement(Fields(x))
  {
    hide Count, Unpack;
    CodeCounts(x);
    ReadersBound(x);
    CountMask();
    CountBefore(Unpack(x).readers);
  }

  lemma FlagsAlone()
    ensures Fields(0) == Free
    ensures Fields(COMMIT_FLAG) == Word(0, false, true, false)
    ensures Fields(LOCK_FLAG) == Word(0, false, false, true)
    ensures Fields(COMMIT_FLAG | WRITE_FLAG) == Word(0, true, true, false)
    ensures Fields(LOCK_FLAG | WRITE_FLAG) == Word(0, true, false, true)
  {
    hide Count;
    CountBefore(0);
  }

  lemma ReadCode(x: bv32)
    ensures FieldsTurn(Code(AcquireRead, x)) == Body(AcquireRead, Fields(x))
  {
    hide Count, Unpack, Increment, Fields, Code;
    CodeAcquireRead(x);
    CountsUp(x & RW_MASK);
    FieldsFlags(x);
    FieldsFlags(x & RW_MASK);
  }

  lemma UnreadCode(x: bv32)
    ensures FieldsTurn(Code(ReleaseRead, x)) == Body(ReleaseRead, Fields(x))
  {
    hide Count, Unpack, Decrement, Fields;
    CountsDown(x);
  }

  lemma FieldsFlags(x: bv32)
    ensures Fields(x) == Word(Count(Unpack(x).readers), Unpack(x).write, Unpack(x).commit, Unpack(x).lock)
  {
  }

  lemma WriteCode(x: bv32)
    ensures FieldsTurn(Code(AcquireWrite, x)) == Body(AcquireWrite, Fields(x))
    ensures FieldsTurn(Code(ReleaseWrite, x)) == Body(ReleaseWrite, Fields(x))
  {
    hide Count, Unpack;
    CodeAcquireWriteTest(x);
    CodeAcquireWrite(x);
    CodeReleaseWrite(x);
    CountBefore(0);
  }

  lemma CommitCode(x: bv32)
    ensures FieldsTurn(Code(SetCommit, x)) == Body(SetCommit, Fields(x))
    ensures FieldsTurn(Code(AcquireCommit, x)) == Body(AcquireCommit, Fields(x))
    ensures FieldsTurn(Code(ReleaseCommit, x)) == Body(ReleaseCommit, Fields(x))
    ensures FieldsTurn(Code(SwitchToCommit, x)) == Body(SwitchToCommit, Fields(x))
  {
    hide Count, Unpack;
    CodeCommits(x);
    ReadersBound(x);
    FlagsAlone();
    CountBefore(0);
  }

  lemma LockCode(x: bv32)
    ensures FieldsTurn(Code(SetLock, x)) == Body(SetLock, Fields(x))
    ensures FieldsTurn(Code(AcquireLock, x)) == Body(AcquireLock, Fields(x))
    ensures FieldsTurn(Code(ReleaseLock, x)) == Body(ReleaseLock, Fields(x))
  {
    hide Count, Unpack;
    CodeLocks(x);
    ReadersBound(x);
    FlagsAlone();
    CountBefore(0);
  }

  lemma SwitchCode(x: bv32)
    ensures FieldsTurn(Code(SwitchToRead, x)) == Body(SwitchToRead, Fields(x))
  {
    hide Count, Unpack;
    CodeSwitchToRead(x);
    CountBefore(1);
  }

  /** Every turn of every operation: what the masks and the 32-bit arithmetic make of a word is
      what the machine makes of its fields. */
  lemma CodeIsBody(op: Op, x: bv32)
    ensures FieldsTurn(Code(op, x)) == Body(op, Fields(x))
  {
    hide Code, Body, Fields, FieldsTurn;
    match op
    case AcquireRead => ReadCode(x);
    case ReleaseRead => UnreadCode(x);
    case AcquireWrite => WriteCode(x);
    case ReleaseWrite => WriteCode(x);
    case SwitchToRead => SwitchCode(x);
    case SetLock => LockCode(x);
    case AcquireLock => LockCode(x);
    case ReleaseLock => LockCode(x);
    case _ => CommitCode(x);
  }
}
