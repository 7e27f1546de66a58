/** Small datatypes and set facts shared by the protocol modules. */
module Common {

  datatype Option<+T> = None | Some(value: T)

  function GetOr<T>(o: Option<T>, default: T): T {
    match o
    case None => default
    case Some(v) => v
  }

  function Min(a: int, b: int): int {
    if a <= b then a else b
  }

  function Max(a: int, b: int): int {
    if a <= b then b else a
  }

  /** A subset of a finite set is no larger than the set. */
  lemma {:induction false} SubsetCardinality<T>(a: set<T>, b: set<T>)
    requires a <= b
    ensures |a| <= |b|
    decreases a
  {
    if a != {} {
      var x :| x in a;
      SubsetCardinality(a - {x}, b - {x});
    }
  }

  // ----- truncated index reads -----------------------------------------------------------------

  /** Index order: by key, then by position. */
  predicate Before(key: nat -> int, i: nat, j: nat) {
    key(i) < key(j) || (key(i) == key(j) && i < j)
  }

  function Below(s: set<nat>, key: nat -> int, k: nat): set<nat> {
    set i | i in s && Before(key, i, k)
  }

  /** The first `limit` members of `s` in index order. */
  function Page(s: set<nat>, key: nat -> int, limit: nat): set<nat> {
    set k | k in s && |Below(s, key, k)| < limit
  }

  /** The first member of a nonempty set in index order. */
  ghost function First(s: set<nat>, key: nat -> int): (m: nat)
    requires s != {}
    ensures m in s && forall i :: i in s && i != m ==> Before(key, m, i)
  {
    FirstExists(s, key);
    var m :| m in s && forall i :: i in s && i != m ==> Before(key, m, i);
    m
  }

  lemma FirstExists(s: set<nat>, key: nat -> int)
    requires s != {}
    ensures exists m :: m in s && forall i :: i in s && i != m ==> Before(key, m, i)
  {
    var m := FirstMember(s, key);
  }

  lemma {:induction false} FirstMember(s: set<nat>, key: nat -> int) returns (m: nat)
    requires s != {}
    ensures m in s && forall i :: i in s && i != m ==> Before(key, m, i)
  {
    m :| m in s;
    if s != {m} {
      var x := m;
      assert s - {x} != {};
      var n := FirstMember(s - {x}, key);
      if Before(key, n, x) {
        m := n;
      }
      forall i | i in s && i != m
        ensures Before(key, m, i)
      {
        assert i == x || i in s - {x};
      }
    }
  }

  /** The last member of a nonempty set in index order. */
  lemma {:induction false} LastExists(s: set<nat>, key: nat -> int) returns (m: nat)
    requires s != {}
    ensures m in s && forall i :: i in s && i != m ==> Before(key, i, m)
  {
    m :| m in s;
    if s != {m} {
      var x := m;
      assert s - {x} != {};
      var n := LastExists(s - {x}, key);
      if Before(key, x, n) {
        m := n;
      }
      forall i | i in s && i != m
        ensures Before(key, i, m)
      {
        assert i == x || i in s - {x};
      }
    }
  }

  /** A page never exceeds its limit, and one that falls short of it is the whole set. */
  lemma PageSize(s: set<nat>, key: nat -> int, limit: nat)
    ensures Page(s, key, limit) <= s && |Page(s, key, limit)| <= limit
    ensures |Page(s, key, limit)| < limit ==> Page(s, key, limit) == s
  {
    var page := Page(s, key, limit);
    if page != {} {
      var last := LastExists(page, key);
      SubsetCardinality(page - {last}, Below(s, key, last));
    }
    if page != s {
      var rest := s - page;
      assert exists k :: k in s && k !in page;
      var first := First(rest, key);
      forall i | i in Below(s, key, first)
        ensures i in page
      {
        assert i in s && !(i in rest && i != first && Before(key, first, i));
      }
      SubsetCardinality(Below(s, key, first), page);
    }
  }

  lemma PageIsPrefix(s: set<nat>, key: nat -> int, limit: nat, i: nat, k: nat)
    requires k in Page(s, key, limit) && i in s && Before(key, i, k)
    ensures i in Page(s, key, limit)
  {
    SubsetCardinality(Below(s, key, i), Below(s, key, k));
  }

  /** The set in index order. */
  ghost function InOrder(s: set<nat>, key: nat -> int): seq<nat>
    decreases s
  {
    if s == {} then []
    else
      var m := First(s, key);
      [m] + InOrder(s - {m}, key)
  }

  lemma {:induction false} InOrderMembers(s: set<nat>, key: nat -> int)
    ensures |InOrder(s, key)| == |s| && forall i :: i in InOrder(s, key) <==> i in s
    decreases s
  {
    if s != {} {
      InOrderMembers(s - {First(s, key)}, key);
    }
  }

  lemma {:induction false} InOrderSorted(s: set<nat>, key: nat -> int)
    ensures forall i, j :: 0 <= i < j < |InOrder(s, key)| ==> Before(key, InOrder(s, key)[i], InOrder(s, key)[j])
    decreases s
  {
    if s != {} {
      var m := First(s, key);
      InOrderSorted(s - {m}, key);
      InOrderMembers(s - {m}, key);
    }
  }

  lemma InOrderEmpty(key: nat -> int)
    ensures InOrder({}, key) == []
  {}

  lemma InOrderStep(s: set<nat>, key: nat -> int)
    requires s != {}
    ensures InOrder(s, key) == [First(s, key)] + InOrder(s - {First(s, key)}, key)
  {}

  lemma FirstIsUnique(s: set<nat>, key: nat -> int, m: nat)
    requires m in s && forall i :: i in s && i != m ==> Before(key, m, i)
    ensures First(s, key) == m
  {}

  /** An index scan of the set: the lowest entry not read yet, one at a time. */
  method ReadInOrder(s: set<nat>, key: nat -> int) returns (r: seq<nat>)
    ensures r == InOrder(s, key)
  {
    hide InOrder;
    r := [];
    var rest := s;
    InOrderEmpty(key);
    while rest != {}
      invariant r + InOrder(rest, key) == InOrder(s, key)
      decreases |rest|
    {
      FirstExists(rest, key);
      var m :| m in rest && forall i :: i in rest && i != m ==> Before(key, m, i);
      FirstIsUnique(rest, key, m);
      InOrderStep(rest, key);
      assert r + InOrder(rest, key) == (r + [m]) + InOrder(rest - {m}, key);
      r := r + [m];
      rest := rest - {m};
    }
  }
}
