/** The order in which runtimes are served: by time, then by name. */
module KeyOrder {
  datatype Key = Key(at: int, name: string)

  /** Lexicographic order of strings, as the language compares them. */
  predicate NameBelow(a: string, b: string) {
    b != "" && (a == "" || a[0] < b[0] || (a[0] == b[0] && NameBelow(a[1..], b[1..])))
  }

  lemma PrefixesBegin(a: string, b: string)
    requires a != "" && b != ""
    ensures forall k: nat | 0 < k <= |a| && k <= |b| :: a[..k] == b[..k] ==> a[0] == b[0]
  {
    assert forall k: nat | 0 < k <= |a| && k <= |b| :: a[..k][0] == a[0] && b[..k][0] == b[0];
  }

  /** The one that ends first, or has the lower character where they first differ. */
  lemma {:induction false} NameBelowMeans(a: string, b: string)
    ensures NameBelow(a, b) <==>
            exists k: nat :: k <= |a| && k < |b| && a[..k] == b[..k] && (k == |a| || a[k] < b[k])
  {
    if a == "" || b == "" || a[0] != b[0] {
      if NameBelow(a, b) { assert a[..0] == b[..0]; }
      if a != "" && b != "" { PrefixesBegin(a, b); }
    } else {
      NameBelowMeans(a[1..], b[1..]);
      if k: nat :| k <= |a[1..]| && k < |b[1..]| && a[1..][..k] == b[1..][..k]
                   && (k == |a[1..]| || a[1..][k] < b[1..][k]) {
        assert a[..k + 1] == [a[0]] + a[1..][..k] && b[..k + 1] == [b[0]] + b[1..][..k];
      }
      if k: nat :| k <= |a| && k < |b| && a[..k] == b[..k] && (k == |a| || a[k] < b[k]) {
        assert k > 0;
        assert a[1..][..k - 1] == a[..k][1..] && b[1..][..k - 1] == b[..k][1..];
      }
    }
  }

  predicate Earlier(a: Key, b: Key) {
    a.at < b.at || (a.at == b.at && NameBelow(a.name, b.name))
  }

  lemma {:induction false} NamesAreLinear(a: string, b: string)
    ensures NameBelow(a, b) || NameBelow(b, a) || a == b
    ensures !(NameBelow(a, b) && NameBelow(b, a))
    decreases |a| + |b|
  {
    if a != "" && b != "" {
      NamesAreLinear(a[1..], b[1..]);
      if a[0] == b[0] && a[1..] == b[1..] {
        assert a == [a[0]] + a[1..];
        assert b == [b[0]] + b[1..];
      }
    }
  }

  lemma {:induction false} NamesAreTransitive(a: string, b: string, c: string)
    requires NameBelow(a, b) && NameBelow(b, c)
    ensures NameBelow(a, c)
  {
    if a != "" && a[0] == b[0] && b[0] == c[0] {
      NamesAreTransitive(a[1..], b[1..], c[1..]);
    }
  }

  lemma KeysAreLinear(a: Key, b: Key)
    ensures Earlier(a, b) || Earlier(b, a) || a == b
    ensures !(Earlier(a, b) && Earlier(b, a)) && !Earlier(a, a)
  {
    NamesAreLinear(a.name, b.name);
    NamesAreLinear(a.name, a.name);
  }

  lemma KeysAreTransitive(a: Key, b: Key, c: Key)
    requires Earlier(a, b) && Earlier(b, c)
    ensures Earlier(a, c)
  {
    if a.at == b.at && b.at == c.at { NamesAreTransitive(a.name, b.name, c.name); }
  }

  predicate IsFirst(s: set<Key>, m: Key) {
    m in s && forall k | k in s :: k == m || Earlier(m, k)
  }

  lemma {:induction false} SomeKeyIsFirst(s: set<Key>) returns (m: Key)
    requires s != {}
    ensures IsFirst(s, m)
  {
    var k :| k in s;
    if s == {k} {
      m := k;
    } else {
      var r := SomeKeyIsFirst(s - {k});
      KeysAreLinear(k, r);
      if Earlier(r, k) {
        m := r;
      } else {
        m := k;
        forall x | x in s ensures x == m || Earlier(m, x) {
          if x != k && x != r { KeysAreTransitive(k, r, x); }
        }
      }
    }
  }

  lemma FirstIsUnique(s: set<Key>, a: Key, b: Key)
    requires IsFirst(s, a) && IsFirst(s, b)
    ensures a == b
  {
    KeysAreLinear(a, b);
  }

  lemma FirstExists(s: set<Key>)
    requires s != {}
    ensures exists m :: IsFirst(s, m)
    ensures forall a, b | IsFirst(s, a) && IsFirst(s, b) :: a == b
  {
    var m := SomeKeyIsFirst(s);
    forall a, b | IsFirst(s, a) && IsFirst(s, b) ensures a == b { FirstIsUnique(s, a, b); }
  }

  function First(s: set<Key>): (m: Key)
    requires s != {}
    ensures m in s
  {
    FirstExists(s);
    var m :| m in s && IsFirst(s, m);
    m
  }

  lemma FirstIsFirst(s: set<Key>)
    requires s != {}
    ensures IsFirst(s, First(s))
  {
  }

  predicate Ascending(q: seq<Key>) {
    forall i, j | 0 <= i < j < |q| :: Earlier(q[i], q[j])
  }

  /** The keys in serving order. */
  function Sorted(s: set<Key>): (q: seq<Key>)
    ensures |q| == |s|
    ensures forall k :: k in q <==> k in s
  {
    if s == {} then [] else
      var m := First(s);
      [m] + Sorted(s - {m})
  }

  lemma {:induction false} SortedAscends(s: set<Key>)
    ensures Ascending(Sorted(s))
  {
    if s != {} {
      var m := First(s);
      FirstIsFirst(s);
      var q := Sorted(s - {m});
      SortedAscends(s - {m});
      forall i | 0 <= i < |q| ensures Earlier(m, q[i]) { assert q[i] in q; }
    }
  }

  function Before(s: set<Key>, k: Key): set<Key> {
    set x | x in s && Earlier(x, k)
  }

  /** How many keys are served before this one. */
  function Rank(s: set<Key>, k: Key): nat {
    |Before(s, k)|
  }

  lemma {:induction false} SortedAtRank(s: set<Key>, k: Key)
    requires k in s
    ensures Rank(s, k) < |s| && Sorted(s)[Rank(s, k)] == k
  {
    var m := First(s);
    FirstIsFirst(s);
    if k == m {
      forall x | x in s ensures !Earlier(x, k) { KeysAreLinear(x, k); }
      assert Before(s, k) == {};
    } else {
      SortedAtRank(s - {m}, k);
      assert Before(s, k) == Before(s - {m}, k) + {m};
    }
  }

  lemma OneIndexEach(q: seq<Key>, i: nat, j: nat)
    requires Ascending(q) && i < |q| && j < |q| && q[i] == q[j]
    ensures i == j
  {
    KeysAreLinear(q[i], q[j]);
  }

  lemma RankAtIndex(s: set<Key>, i: nat)
    requires i < |s|
    ensures Sorted(s)[i] in s && Rank(s, Sorted(s)[i]) == i
  {
    var q := Sorted(s);
    var k := q[i];
    assert k in q;
    SortedAtRank(s, k);
    SortedAscends(s);
    OneIndexEach(q, Rank(s, k), i);
  }

  /** Any strictly ascending listing of the keys is the serving order. */
  lemma {:induction false} AscendingIsSorted(s: set<Key>, q: seq<Key>)
    requires Ascending(q) && (forall k :: k in q <==> k in s)
    ensures q == Sorted(s)
  {
    assert |q| > 0 ==> q[0] in q;
    if s != {} {
      assert First(s) in q;
      assert IsFirst(s, q[0]) by {
        forall k | k in s ensures k == q[0] || Earlier(q[0], k) { assert k in q; }
      }
      FirstIsFirst(s);
      FirstIsUnique(s, q[0], First(s));
      var rest := q[1..];
      forall k ensures k in rest <==> k in s - {q[0]} {
        KeysAreLinear(q[0], q[0]);
        if k in rest { assert k in q; }
        if k in s && k != q[0] { assert k in q; }
      }
      AscendingIsSorted(s - {q[0]}, rest);
    }
  }
}
