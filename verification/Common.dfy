/** What several modules use: an optional value, the least key, concatenation, and the two laws
    of division. */
module Common {
  datatype Option<T> = None | Some(value: T)

  predicate IsLeast(keys: set<nat>, least: nat) {
    least in keys && forall k | k in keys :: least <= k
  }

  /** The parts of a sequence, put together. */
  function Joined<T>(parts: seq<seq<T>>): seq<T> {
    if parts == [] then [] else parts[0] + Joined(parts[1..])
  }

  lemma {:induction false} JoinedLast<T>(parts: seq<seq<T>>, last: seq<T>)
    ensures Joined(parts + [last]) == Joined(parts) + last
  {
    if parts == [] {
      assert parts + [last] == [last] && Joined([last]) == last + Joined([last][1..]);
    } else {
      assert (parts + [last])[1..] == parts[1..] + [last];
      JoinedLast(parts[1..], last);
    }
  }

  lemma Divided(n: nat, d: nat, q: nat, r: nat)
    requires n == d * q + r && r < d
    ensures n / d == q && n % d == r
  {
    var m := n / d;
    assert m < q ==> d * (m + 1) <= d * q;
    assert q < m ==> d * (q + 1) <= d * m;
  }

  lemma ModMultiple(d: nat, q: nat, n: nat)
    requires d > 0
    ensures (d * q + n) % d == n % d
  {
    assert d * q + n == d * (q + n / d) + n % d by { assert d * (q + n / d) == d * q + d * (n / d); }
    Divided(d * q + n, d, q + n / d, n % d);
  }
}
