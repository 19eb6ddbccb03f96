/** Containers shared by the models: an optional value, the ascending traversal of an
    ordered map's keys, and the bag of elements held by a map of lists. */
module Collections {

  datatype Option<+T> = None | Some(value: T) {
    function GetOr(default: T): T {
      match this
      case None => default
      case Some(v) => v
    }
  }

  // ---------- smallest key, ascending traversal ----------

  lemma {:induction false} MinBelow(s: set<nat>, x: nat)
    requires x in s
    ensures exists k: nat :: k in s && forall j | j in s :: k <= j
  {
    if y :| y in s && y < x {
      MinBelow(s, y);
    } else {
      assert forall j | j in s :: x <= j;
    }
  }

  lemma MinExists(s: set<nat>)
    requires s != {}
    ensures exists k: nat :: k in s && forall j | j in s :: k <= j
  {
    var x :| x in s;
    MinBelow(s, x);
  }

  /** The first key of a `std::map` or `std::set`: the smallest one. */
  function MinKey(s: set<nat>): (k: nat)
    requires s != {}
    ensures k in s
    ensures forall j | j in s :: k <= j
  {
    MinExists(s);
    var k: nat :| k in s && forall j | j in s :: k <= j;
    k
  }

  /** The keys in the order in which an ordered container visits them. */
  function Ascending(s: set<nat>): (xs: seq<nat>)
    ensures |xs| == |s|
    ensures forall x :: x in xs <==> x in s
    ensures StrictlyAscending(xs)
    decreases s
  {
    if s == {} then []
    else
      var k := MinKey(s);
      [k] + Ascending(s - {k})
  }

  ghost predicate StrictlyAscending(xs: seq<nat>) {
    forall i, j | 0 <= i < j < |xs| :: xs[i] < xs[j]
  }

  lemma Append<T>(a: seq<T>, b: seq<T>, c: seq<T>)
    ensures a + (b + c) == (a + b) + c
  {
  }

  lemma DropFront<T>(a: seq<T>, b: seq<T>)
    ensures (a + b)[|a|..] == b
  {
  }

  lemma FirstOfAppend<T>(a: seq<T>, b: seq<T>)
    requires a != []
    ensures (a + b)[0] == a[0] && (a + b)[1..] == a[1..] + b && a + b != []
  {
  }

  lemma SliceOfSlice<T>(s: seq<T>, from: nat, to: nat, i: nat, j: nat)
    requires from <= to <= |s| && i <= j <= to - from
    ensures s[from..to][i..j] == s[from + i..from + j]
  {
    var a, b := s[from..to][i..j], s[from + i..from + j];
    assert |a| == |b|;
    forall k | 0 <= k < |a| ensures a[k] == b[k] {
      assert a[k] == s[from..to][i + k] == s[from + (i + k)];
    }
  }

  lemma SliceOfTail<T>(s: seq<T>, from: nat, i: nat, j: nat)
    requires i <= j && from + j <= |s|
    ensures s[from..][i..j] == s[from + i..from + j]
  {
  }

  lemma TailOfTail<T>(s: seq<T>, from: nat, i: nat)
    requires from + i <= |s|
    ensures s[from..][i..] == s[from + i..]
  {
  }

  // ---------- the bag of elements of a map of lists ----------

  ghost function Bag<T>(m: map<nat, seq<T>>): multiset<T>
    decreases m.Keys
  {
    if m == map[] then multiset{}
    else
      assert m.Keys != {};
      var k := MinKey(m.Keys);
      multiset(m[k]) + Bag(m - {k})
  }

  lemma {:induction false} BagRemove<T>(m: map<nat, seq<T>>, k: nat)
    requires k in m
    ensures Bag(m) == multiset(m[k]) + Bag(m - {k})
    decreases m.Keys
  {
    var x := MinKey(m.Keys);
    if x != k {
      BagRemove(m - {x}, k);
      assert (m - {x}) - {k} == (m - {k}) - {x};
      var r := m - {k};
      assert x in r.Keys;
      assert MinKey(r.Keys) == x;
      assert r[x] == m[x];
    }
  }

  lemma {:induction false} BagInsert<T>(m: map<nat, seq<T>>, k: nat, xs: seq<T>)
    requires k !in m
    ensures Bag(m[k := xs]) == multiset(xs) + Bag(m)
  {
    var n := m[k := xs];
    BagRemove(n, k);
    assert n - {k} == m;
  }

  lemma {:induction false} BagMember<T>(m: map<nat, seq<T>>, x: T)
    requires x in Bag(m)
    ensures exists k :: k in m && x in m[k]
    decreases m.Keys
  {
    var k := MinKey(m.Keys);
    if x !in m[k] {
      BagMember(m - {k}, x);
      var j :| j in m - {k} && x in (m - {k})[j];
      assert j in m && x in m[j];
    }
  }
}
