/** Small shared vocabulary: optional values and Python's `dict.get`. */
module Wrappers {

  datatype Option<+T> = None | Some(value: T)

  /** `mapping.get(key, default)`. */
  function Get<K, V>(m: map<K, V>, k: K, default: V): V {
    if k in m then m[k] else default
  }
}

/** How often a value occurs in a list. */
module Counting {

  function Count<T(==)>(list: seq<T>, x: T): nat {
    if list == [] then 0
    else
      var n := |list| - 1;
      Count(list[..n], x) + (if list[n] == x then 1 else 0)
  }

  lemma {:induction false} CountConcat<T>(a: seq<T>, b: seq<T>, x: T)
    ensures Count(a + b, x) == Count(a, x) + Count(b, x)
  {
    if b == [] {
      assert a + b == a;
    } else {
      var n := |b| - 1;
      assert (a + b)[..|a + b| - 1] == a + b[..n];
      CountConcat(a, b[..n], x);
    }
  }

  lemma {:induction false} CountMember<T>(a: seq<T>, x: T)
    ensures Count(a, x) > 0 <==> x in a
  {
    if a != [] {
      CountMember(a[..|a| - 1], x);
      assert a == a[..|a| - 1] + [a[|a| - 1]];
    }
  }

  lemma CountNone<T>(x: T)
    ensures Count([], x) == 0
  {
  }

  lemma CountOne<T>(x: T, y: T)
    ensures Count([x], y) == if x == y then 1 else 0
  {
  }
}

/** Powers of two, for the capped exponential backoffs. */
module Powers {

  function Pow2(n: nat): nat {
    if n == 0 then 1 else 2 * Pow2(n - 1)
  }

  lemma {:induction false} Pow2Grows(a: nat, b: nat)
    requires a <= b
    ensures 1 <= Pow2(a) <= Pow2(b)
  {
    if a < b {
      Pow2Grows(a, b - 1);
    } else if a > 0 {
      Pow2Grows(a - 1, b - 1);
    }
  }
}
