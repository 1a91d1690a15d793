/** Identifiers, times, machine integers and finite sums shared by every component. */
module Prelude {

  /** A UUID is its 128-bit value: the order of canonical texts is the order of the values. */
  type Uuid = nat

  /** Whole microseconds since the zero time of the source's clock type; 0 is "not set". */
  type Time = int

  const MIN_INT64: int := -0x8000_0000_0000_0000
  const MAX_INT64: int := 0x7fff_ffff_ffff_ffff

  predicate IsInt64(x: int) {
    -0x8000_0000_0000_0000 <= x <= 0x7fff_ffff_ffff_ffff
  }

  type Int64 = x: int | -0x8000_0000_0000_0000 <= x <= 0x7fff_ffff_ffff_ffff

  datatype Option<+T> = None | Some(value: T)

  datatype Result<+T, +E> = Ok(value: T) | Err(error: E)

  // ---- Ordered enumeration of a finite set of identifiers ----

  predicate IsLeast(s: set<nat>, m: nat) {
    m in s && forall x :: x in s ==> m <= x
  }

  lemma LeastOfTwo(s: set<nat>, y: nat, m: nat)
    requires y in s && IsLeast(s - {y}, m)
    ensures IsLeast(s, if y < m then y else m)
  {
    forall x | x in s ensures (if y < m then y else m) <= x {
      assert x == y || x in s - {y};
    }
  }

  lemma {:induction false} LeastExists(s: set<nat>)
    requires s != {}
    ensures exists m :: IsLeast(s, m)
  {
    var y :| y in s;
    if s == {y} {
      assert IsLeast(s, y);
    } else {
      LeastExists(s - {y});
      var m :| IsLeast(s - {y}, m);
      LeastOfTwo(s, y, m);
    }
  }

  function Least(s: set<nat>): (m: nat)
    requires s != {}
    ensures m in s && forall x :: x in s ==> m <= x
  {
    LeastExists(s);
    var m :| m in s && forall x :: x in s ==> m <= x;
    m
  }

  predicate Ascending(s: seq<nat>) {
    forall i, j :: 0 <= i < j < |s| ==> s[i] < s[j]
  }

  /** The elements of a set in ascending order: sorting the keys of a hash map, or ORDER BY id. */
  function Sorted(s: set<nat>): (r: seq<nat>)
    ensures Ascending(r)
    ensures forall x :: x in r <==> x in s
    ensures |r| == |s|
  {
    if s == {} then []
    else
      var m := Least(s);
      [m] + Sorted(s - {m})
  }

  lemma {:induction false} AscendingUnique(a: seq<nat>, b: seq<nat>)
    requires Ascending(a) && Ascending(b) && |a| == |b|
    requires forall x :: x in a <==> x in b
    ensures a == b
  {
    if |a| > 0 {
      assert a[0] in b;
      assert b[0] in a;
      assert a[0] == b[0];
      forall x ensures x in a[1..] <==> x in b[1..] {
        if x in a[1..] {
          var i :| 0 <= i < |a| - 1 && a[1..][i] == x;
          assert a[i + 1] == x && x in b && x > a[0];
        }
        if x in b[1..] {
          var i :| 0 <= i < |b| - 1 && b[1..][i] == x;
          assert b[i + 1] == x && x in a && x > b[0];
        }
      }
      AscendingUnique(a[1..], b[1..]);
    }
  }

  // ---- Sums over finite maps ----

  ghost function SumValues(m: map<nat, int>): int
    decreases |m|
  {
    if m == map[] then 0
    else
      var k := Least(m.Keys);
      m[k] + SumValues(m - {k})
  }

  /** A sum over a map may be peeled at any key, not just at the least one. */
  lemma {:induction false} SumRemove(m: map<nat, int>, k: nat)
    requires k in m
    ensures SumValues(m) == m[k] + SumValues(m - {k})
    decreases |m|
  {
    var j := Least(m.Keys);
    if j != k {
      var without := m - {j};
      SumRemove(without, k);
      var both := m - {k};
      assert j in both && forall x :: x in both ==> j <= x;
      assert Least(both.Keys) == j by {
        assert Least(both.Keys) in both;
      }
      assert both - {j} == without - {k};
      assert both[j] == m[j];
    }
  }

  lemma SumUpdate(m: map<nat, int>, k: nat, v: int)
    requires k in m
    ensures SumValues(m[k := v]) == SumValues(m) - m[k] + v
  {
    SumRemove(m, k);
    SumRemove(m[k := v], k);
    assert m[k := v] - {k} == m - {k};
  }

  lemma SumInsert(m: map<nat, int>, k: nat, v: int)
    requires k !in m
    ensures SumValues(m[k := v]) == SumValues(m) + v
  {
    SumRemove(m[k := v], k);
    assert m[k := v] - {k} == m;
  }

  /** Sums add pointwise. */
  lemma {:induction false} SumAdd(a: map<nat, int>, b: map<nat, int>, c: map<nat, int>)
    requires a.Keys == b.Keys == c.Keys
    requires forall k :: k in a ==> c[k] == a[k] + b[k]
    ensures SumValues(c) == SumValues(a) + SumValues(b)
    decreases |a|
  {
    if a == map[] {
      assert b == map[] && c == map[];
    } else {
      var k := Least(a.Keys);
      SumAdd(a - {k}, b - {k}, c - {k});
      SumRemove(a, k);
      SumRemove(b, k);
      SumRemove(c, k);
    }
  }

  lemma {:induction false} SumZero(m: map<nat, int>)
    requires forall k :: k in m ==> m[k] == 0
    ensures SumValues(m) == 0
    decreases |m|
  {
    if m != map[] {
      SumZero(m - {Least(m.Keys)});
    }
  }
}
