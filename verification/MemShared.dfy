/** Byte strings: common prefixes, found word by word, and the order of byte slices. */
module MemShared {
  newtype byte = x: int | 0 <= x < 256

  type Bytes = seq<byte>

  const WORD: nat := 8

  /** The length of the longest common prefix. */
  function Shared(a: Bytes, b: Bytes): (n: nat)
    ensures n <= |a| && n <= |b|
    ensures a[..n] == b[..n]
    ensures n < |a| && n < |b| ==> a[n] != b[n]
  {
    if a == [] || b == [] || a[0] != b[0] then 0 else 1 + Shared(a[1..], b[1..])
  }

  lemma {:induction false} SharedUnique(a: Bytes, b: Bytes, n: nat)
    requires n <= |a| && n <= |b| && a[..n] == b[..n]
    requires n < |a| && n < |b| ==> a[n] != b[n]
    ensures Shared(a, b) == n
  {
    if n > 0 {
      assert a[0] == a[..n][0] && b[0] == b[..n][0];
      assert a[1..][..n - 1] == a[..n][1..] && b[1..][..n - 1] == b[..n][1..];
      SharedUnique(a[1..], b[1..], n - 1);
    }
  }

  /** The first `i` bytes agree. */
  predicate Agree(a: Bytes, b: Bytes, i: nat) {
    i <= |a| && i <= |b| && forall k | 0 <= k < i :: a[k] == b[k]
  }

  lemma AgreeWord(a: Bytes, b: Bytes, i: nat, j: nat)
    requires i <= j <= |a| && j <= |b| && Agree(a, b, i) && a[i..j] == b[i..j]
    ensures Agree(a, b, j)
  {
    forall k | i <= k < j ensures a[k] == b[k] {
      assert a[k] == a[i..j][k - i] && b[k] == b[i..j][k - i];
    }
  }

  lemma AgreeIsShared(a: Bytes, b: Bytes, i: nat)
    requires Agree(a, b, i) && (i < |a| && i < |b| ==> a[i] != b[i])
    ensures Shared(a, b) == i
  {
    SharedUnique(a, b, i);
  }

  lemma AgreeStep(a: Bytes, b: Bytes, i: nat)
    requires Agree(a, b, i) && i < |a| && i < |b| && a[i] == b[i]
    ensures Agree(a, b, i + 1)
  {
  }

  lemma AgreeNone(a: Bytes, b: Bytes)
    ensures Agree(a, b, 0)
  {
  }

  /** z_memshared: whole words while they agree, then the byte by byte tail. */
  method MemSharedPrefix(a: Bytes, b: Bytes) returns (shared: nat)
    ensures shared == Shared(a, b)
  {
    hide Agree, Shared;
    var min_length := if |a| < |b| then |a| else |b|;
    var n: nat, i: nat := min_length, 0;
    AgreeNone(a, b);
    while n >= WORD && a[i..i + WORD] == b[i..i + WORD]
      invariant i + n == min_length && Agree(a, b, i)
    {
      AgreeWord(a, b, i, i + WORD);
      n := n - WORD;
      i := i + WORD;
    }
    n := SwitchTail(a, b, n, i);
    return min_length - n;
  }

  /** The switch at the end: it enters at the number of bytes left and falls through; a longer
      rest is compared in a loop. The result is the number of bytes not shared. */
  method SwitchTail(a: Bytes, b: Bytes, n: nat, i0: nat) returns (left: nat)
    requires i0 + n == (if |a| < |b| then |a| else |b|) && Agree(a, b, i0)
    ensures left <= n && i0 + n - left == Shared(a, b)
  {
    hide Agree, Shared;
    var i := i0;
    left := n;
    if left <= 7 {
      left := Fallthrough(a, b, n, i0);
      return;
    }
    while left > 0 && a[i] == b[i]
      invariant left <= n && i + left == i0 + n && Agree(a, b, i)
    {
      AgreeStep(a, b, i);
      left, i := left - 1, i + 1;
    }
    AgreeIsShared(a, b, i);
  }

  method Fallthrough(a: Bytes, b: Bytes, n: nat, i0: nat) returns (left: int)
    requires i0 + n == (if |a| < |b| then |a| else |b|) && Agree(a, b, i0) && n <= 7
    ensures 0 <= left <= n && i0 + n - left == Shared(a, b)
  {
    hide Agree, Shared;
    var i: int := i0;
    left := n;
    label switch: {
      if left == 7 {
        if a[i] != b[i] { break switch; }
        AgreeStep(a, b, i);
        left, i := left - 1, i + 1;
      }
      if left == 6 {
        if a[i] != b[i] { break switch; }
        AgreeStep(a, b, i);
        left, i := left - 1, i + 1;
      }
      if left == 5 {
        if a[i] != b[i] { break switch; }
        AgreeStep(a, b, i);
        left, i := left - 1, i + 1;
      }
      if left == 4 {
        if a[i] != b[i] { break switch; }
        AgreeStep(a, b, i);
        left, i := left - 1, i + 1;
      }
      if left == 3 {
        if a[i] != b[i] { break switch; }
        AgreeStep(a, b, i);
        left, i := left - 1, i + 1;
      }
      if left == 2 {
        if a[i] != b[i] { break switch; }
        AgreeStep(a, b, i);
        left, i := left - 1, i + 1;
      }
      if left == 1 {
        if a[i] != b[i] { break switch; }
        AgreeStep(a, b, i);
        left, i := left - 1, i + 1;
      }
    }
    AgreeIsShared(a, b, i);
  }

  // ----------------------------------------------------------------------- order

  /** Lexicographic order, a proper prefix before its extensions. */
  predicate Less(a: Bytes, b: Bytes) {
    var n := Shared(a, b);
    n < |b| && (n == |a| || a[n] < b[n])
  }

  predicate AtMost(a: Bytes, b: Bytes) { a == b || Less(a, b) }

  /** memcmp: the difference of the first bytes that differ. */
  function MemCmp(a: Bytes, b: Bytes): int
    requires |a| == |b|
  {
    if a == [] then 0 else if a[0] != b[0] then a[0] as int - b[0] as int else MemCmp(a[1..], b[1..])
  }

  /** z_byte_slice_compare. */
  function SliceCompare(a: Bytes, b: Bytes): int {
    if |a| != |b| then
      var n := if |a| < |b| then |a| else |b|;
      var cmp := MemCmp(a[..n], b[..n]);
      if cmp != 0 then cmp else |a| - |b|
    else MemCmp(a, b)
  }

  lemma {:induction false} MemCmpAt(a: Bytes, b: Bytes)
    requires |a| == |b|
    ensures var n := Shared(a, b);
            MemCmp(a, b) == if n == |a| then 0 else a[n] as int - b[n] as int
  {
    if a != [] && a[0] == b[0] { MemCmpAt(a[1..], b[1..]); }
  }

  /** The comparison of slices is the lexicographic order. */
  lemma SliceCompareIsOrder(a: Bytes, b: Bytes)
    ensures SliceCompare(a, b) < 0 <==> Less(a, b)
    ensures SliceCompare(a, b) == 0 <==> a == b
    ensures SliceCompare(a, b) > 0 <==> Less(b, a)
  {
    var n := if |a| < |b| then |a| else |b|;
    MemCmpAt(a[..n], b[..n]);
    var m := Shared(a, b);
    assert a[..n][..m] == a[..m] && b[..n][..m] == b[..m];
    SharedUnique(a[..n], b[..n], m);
    SharedUnique(b, a, m);
    if |a| == |b| { assert a[..n] == a && b[..n] == b; }
    if m == |a| && m == |b| { assert a == a[..m] && b == b[..m]; }
    if a == b { SharedUnique(a, b, |a|); }
  }

  lemma LessTransitive(a: Bytes, b: Bytes, c: Bytes)
    requires Less(a, b) && Less(b, c)
    ensures Less(a, c)
  {
    var m, n := Shared(a, b), Shared(b, c);
    var k := if m < n then m else n;
    assert a[..k] == a[..m][..k] && b[..k] == b[..m][..k] && b[..k] == b[..n][..k] && c[..k] == c[..n][..k];
    if m < n {
      assert b[m] == b[..n][m] && c[m] == c[..n][m];
    } else if n < m {
      assert a[n] == a[..m][n] && b[n] == b[..m][n];
    }
    SharedUnique(a, c, k);
  }

  lemma LessTotal(a: Bytes, b: Bytes)
    ensures Less(a, b) || Less(b, a) || a == b
    ensures !(Less(a, b) && Less(b, a)) && !Less(a, a)
  {
    SliceCompareIsOrder(a, b);
    SliceCompareIsOrder(a, a);
  }
}
