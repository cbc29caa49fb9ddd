/** Small definitions shared by the models: the optional value, the byte, sets of elements, sorted keys. */
module Basics {

  datatype Option<+T> = None | Some(value: T) {
    function GetOr(default: T): T {
      if Some? then value else default
    }
  }

  type Byte = b: int | 0 <= b < 0x100

  function Unit(b: bool): int {
    if b then 1 else 0
  }

  function Elements<T(==)>(s: seq<T>): set<T> {
    set x | x in s
  }

  ghost predicate Distinct<T>(s: seq<T>) {
    forall i, j | 0 <= i < j < |s| :: s[i] != s[j]
  }

  lemma SubsetSize<T>(a: set<T>, b: set<T>)
    requires a <= b
    ensures |a| <= |b|
    ensures a != b ==> |a| < |b|
  {
    assert b == a + (b - a);
    if a != b {
      var x := SomeElement(b - a);
    }
  }

  /** The sum of the values of a map. */
  ghost function Total<K>(m: map<K, nat>): nat {
    if m.Keys == {} then 0
    else
      var k :| k in m.Keys;
      m[k] + Total(m - {k})
  }

  lemma {:induction false} TotalWithout<K>(m: map<K, nat>, k: K)
    requires k in m
    ensures Total(m) == m[k] + Total(m - {k})
    decreases |m|
  {
    var first :| first in m.Keys && Total(m) == m[first] + Total(m - {first});
    if first != k {
      TotalWithout(m - {first}, k);
      TotalWithout(m - {k}, first);
      assert m - {first} - {k} == m - {k} - {first};
    }
  }

  lemma TotalUpdate<K>(m: map<K, nat>, k: K, n: nat)
    requires k in m
    ensures Total(m[k := n]) == Total(m) - m[k] + n
  {
    TotalWithout(m, k);
    TotalWithout(m[k := n], k);
    assert m[k := n] - {k} == m - {k};
  }

  predicate StrictlyIncreasing(keys: seq<int>) {
    forall i, j | 0 <= i < j < |keys| :: keys[i] < keys[j]
  }

  lemma SomeElement<T>(s: set<T>) returns (m: T)
    requires s != {}
    ensures m in s
  {
    m :| m in s;
  }

  lemma {:induction false} LeastExists(s: set<int>)
    requires s != {}
    ensures exists m :: m in s && forall x | x in s :: m <= x
  {
    var m := SomeElement(s);
    var rest := s - {m};
    if rest == {} {
      assert s == {m};
    } else {
      LeastExists(rest);
      var least: int :| least in rest && forall x | x in rest :: least <= x;
      assert s == rest + {m};
      assert least <= m ==> forall x | x in s :: least <= x;
      assert least > m ==> forall x | x in s :: m <= x;
    }
  }

  /** `sorted` on the keys of a dictionary. */
  function Sorted(s: set<int>): (keys: seq<int>)
    ensures StrictlyIncreasing(keys) && (forall k :: k in keys <==> k in s)
  {
    if s == {} then []
    else
      LeastExists(s);
      var m :| m in s && forall x | x in s :: m <= x;
      [m] + Sorted(s - {m})
  }
}
