/** Sums over sequences. */
module Sums {
  function Sum<A>(f: A -> int, s: seq<A>): int {
    if s == [] then 0 else Sum(f, s[..|s| - 1]) + f(s[|s| - 1])
  }

  lemma {:induction false} Append<A>(f: A -> int, s: seq<A>, x: A)
    ensures Sum(f, s + [x]) == Sum(f, s) + f(x)
  {
    assert (s + [x])[..|s|] == s;
  }

  lemma {:induction false} Concat<A>(f: A -> int, s: seq<A>, t: seq<A>)
    ensures Sum(f, s + t) == Sum(f, s) + Sum(f, t)
  {
    if t == [] {
      assert s + t == s;
    } else {
      assert (s + t)[..|s + t| - 1] == s + t[..|t| - 1];
      Concat(f, s, t[..|t| - 1]);
    }
  }

  /** A sum, taken apart at one position. */
  lemma {:induction false} At<A>(f: A -> int, s: seq<A>, k: nat)
    requires k < |s|
    ensures Sum(f, s) == Sum(f, s[..k]) + f(s[k]) + Sum(f, s[k + 1..])
  {
    hide Sum;
    Append(f, s[..k], s[k]);
    Concat(f, s[..k] + [s[k]], s[k + 1..]);
    assert s == s[..k] + [s[k]] + s[k + 1..];
  }

  lemma {:induction false} Update<A>(f: A -> int, s: seq<A>, k: nat, x: A)
    requires k < |s|
    ensures Sum(f, s[k := x]) == Sum(f, s) - f(s[k]) + f(x)
  {
    hide Sum;
    At(f, s, k);
    At(f, s[k := x], k);
    assert s[k := x][..k] == s[..k] && s[k := x][k + 1..] == s[k + 1..];
  }

  function Without<A>(s: seq<A>, k: nat): seq<A>
    requires k < |s|
  {
    s[..k] + s[k + 1..]
  }

  lemma {:induction false} Remove<A>(f: A -> int, s: seq<A>, k: nat)
    requires k < |s|
    ensures Sum(f, Without(s, k)) == Sum(f, s) - f(s[k])
  {
    hide Sum;
    At(f, s, k);
    Concat(f, s[..k], s[k + 1..]);
  }

  // ---------- over maps ----------

  ghost function OverMap<K, V>(f: V -> int, m: map<K, V>): int
    decreases |m|
  {
    if m == map[] then 0
    else
      var key :| key in m;
      f(m[key]) + OverMap(f, m - {key})
  }

  /** It does not matter which entry is counted first. */
  lemma {:induction false} TakeOut<K, V>(f: V -> int, m: map<K, V>, key: K)
    requires key in m
    ensures OverMap(f, m) == f(m[key]) + OverMap(f, m - {key})
    decreases |m|
  {
    var first :| first in m && OverMap(f, m) == f(m[first]) + OverMap(f, m - {first});
    if first != key {
      TakeOut(f, m - {first}, key);
      TakeOut(f, m - {key}, first);
      assert m - {first} - {key} == m - {key} - {first};
    }
  }

  lemma {:induction false} PutIn<K, V>(f: V -> int, m: map<K, V>, key: K, value: V)
    ensures OverMap(f, m[key := value]) == OverMap(f, m) + f(value) - (if key in m then f(m[key]) else 0)
  {
    TakeOut(f, m[key := value], key);
    if key in m {
      TakeOut(f, m, key);
      assert m[key := value] - {key} == m - {key};
    } else {
      assert m[key := value] - {key} == m;
    }
  }

  lemma {:induction false} OverMapNonNegative<K, V>(f: V -> int, m: map<K, V>)
    requires forall key :: key in m ==> f(m[key]) >= 0
    ensures OverMap(f, m) >= 0
    decreases |m|
  {
    if m != map[] {
      var key :| key in m && OverMap(f, m) == f(m[key]) + OverMap(f, m - {key});
      OverMapNonNegative(f, m - {key});
    }
  }

  // ---------- over sequences, compared ----------

  lemma {:induction false} NonNegative<A>(f: A -> int, s: seq<A>)
    requires forall x :: x in s ==> f(x) >= 0
    ensures Sum(f, s) >= 0
    ensures forall x :: x in s ==> f(x) <= Sum(f, s)
  {
    if s != [] { NonNegative(f, s[..|s| - 1]); }
  }

  lemma {:induction false} AtMost<A>(f: A -> int, g: A -> int, s: seq<A>)
    requires forall x :: x in s ==> f(x) <= g(x)
    ensures Sum(f, s) <= Sum(g, s)
  {
    if s != [] { AtMost(f, g, s[..|s| - 1]); }
  }
}
