/**
 * Database tables as finite maps from auto-increment ids to rows.
 *
 * Every table keeps a counter `n` above all of its keys; ids are never reused.
 * Rows are listed in insertion order, which is ascending id order, so "the rows
 * of a table whose parent is one of `owners`" is the ascending enumeration
 * `Select` of the matching keys below the counter.
 */
module Tables {

  type Id = nat

  ghost predicate Increasing(r: seq<Id>) {
    forall i, j :: 0 <= i < j < |r| ==> r[i] < r[j]
  }

  /** Every key of `m` lies below the counter `n`. */
  ghost predicate Below<T>(m: map<Id, T>, n: nat) {
    forall k :: k in m ==> k < n
  }

  /** The keys below `n` whose row has its parent among `owners`, ascending. */
  function Select<T>(m: map<Id, T>, parent: T -> Id, owners: set<Id>, n: nat): (r: seq<Id>)
    ensures forall i :: 0 <= i < |r| ==> r[i] < n && r[i] in m && parent(m[r[i]]) in owners
    ensures Increasing(r)
  {
    if n == 0 then []
    else
      var r0 := Select(m, parent, owners, n - 1);
      if n - 1 in m && parent(m[n - 1]) in owners then r0 + [n - 1] else r0
  }

  /** ... and it lists every matching key below the bound. */
  lemma {:induction false} SelectComplete<T>(m: map<Id, T>, parent: T -> Id, owners: set<Id>, n: nat)
    ensures forall k :: k < n && k in m && parent(m[k]) in owners ==> k in Select(m, parent, owners, n)
  {
    if n > 0 {
      SelectComplete(m, parent, owners, n - 1);
    }
  }

  /**
   * `m'` (counter `n'`) is `m` (counter `n`) plus rows under every id from
   * `n` up to `n'`; the old rows are untouched.
   */
  ghost predicate Grows<T>(m: map<Id, T>, n: nat, m': map<Id, T>, n': nat) {
    && n <= n'
    && (forall k :: k in m' <==> k in m || n <= k < n')
    && (forall k :: k in m && k < n ==> m'[k] == m[k])
  }

  /** Growth composes; rows added by the first step survive the second. */
  lemma GrowsChain<T>(m0: map<Id, T>, n0: nat, m1: map<Id, T>, n1: nat, m2: map<Id, T>, n2: nat)
    requires Grows(m0, n0, m1, n1) && Grows(m1, n1, m2, n2)
    ensures Grows(m0, n0, m2, n2)
    ensures forall k :: n0 <= k < n1 ==> m2[k] == m1[k]
  {
  }

  /** Inserts `rows` under the consecutive fresh ids `n`, `n + 1`, ... */
  function Append<T>(m: map<Id, T>, n: nat, rows: seq<T>): (r: map<Id, T>)
    ensures forall k :: k in r <==> k in m || n <= k < n + |rows|
    ensures forall k :: k in m && k < n ==> r[k] == m[k]
    ensures forall k :: n <= k < n + |rows| ==> r[k] == rows[k - n]
    decreases |rows|
  {
    if rows == [] then m
    else
      var r := Append(m[n := rows[0]], n + 1, rows[1..]);
      assert forall k :: n < k < n + |rows| ==> r[k] == rows[k - n] by {
        forall k | n < k < n + |rows| ensures r[k] == rows[k - n] {
          assert r[k] == rows[1..][k - (n + 1)];
        }
      }
      r
  }

  /** The consecutive ids `lo`, ..., `hi - 1`. */
  function Range(lo: nat, hi: nat): (r: seq<Id>)
    requires lo <= hi
    ensures |r| == hi - lo
    ensures forall i :: 0 <= i < |r| ==> r[i] == lo + i
  {
    seq(hi - lo, i => lo + i)
  }

  /** An increasing sequence is determined by its elements. */
  lemma {:induction false} IncreasingUnique(a: seq<Id>, b: seq<Id>)
    requires Increasing(a) && Increasing(b)
    requires forall x :: x in a <==> x in b
    ensures a == b
    decreases |a|
  {
    if |a| == 0 {
      EmptyWhenNoElements(b);
    } else {
      IncreasingHeads(a, b);
      IncreasingTails(a, b);
      IncreasingUnique(a[1..], b[1..]);
      assert a == [a[0]] + a[1..];
      assert b == [b[0]] + b[1..];
    }
  }

  /** Two increasing sequences with the same elements start alike. */
  lemma IncreasingHeads(a: seq<Id>, b: seq<Id>)
    requires Increasing(a) && Increasing(b) && |a| > 0
    requires forall x :: x in a <==> x in b
    ensures |b| > 0 && a[0] == b[0]
  {
    assert a[0] in b;
    assert b[0] in a;
    var i :| 0 <= i < |b| && b[i] == a[0];
    var j :| 0 <= j < |a| && a[j] == b[0];
    assert a[0] <= a[j] && b[0] <= b[i];
  }

  /** ... and, with the first element gone, still have the same elements. */
  lemma IncreasingTails(a: seq<Id>, b: seq<Id>)
    requires Increasing(a) && Increasing(b) && |a| > 0 && |b| > 0 && a[0] == b[0]
    requires forall x :: x in a <==> x in b
    ensures Increasing(a[1..]) && Increasing(b[1..])
    ensures forall x :: x in a[1..] <==> x in b[1..]
  {
    forall x | x in a[1..] ensures x in b[1..] {
      TailMember(a, b, x);
    }
    forall x | x in b[1..] ensures x in a[1..] {
      TailMember(b, a, x);
    }
  }

  lemma TailMember(a: seq<Id>, b: seq<Id>, x: Id)
    requires Increasing(a) && Increasing(b) && |a| > 0 && |b| > 0 && a[0] == b[0]
    requires x in a[1..] && x in b
    ensures x in b[1..]
  {
    var p :| 0 <= p < |a[1..]| && a[1..][p] == x;
    assert x == a[p + 1] && x > a[0];
    var q :| 0 <= q < |b| && b[q] == x;
    assert q > 0;
    assert b[1..][q - 1] == x;
  }

  lemma EmptyWhenNoElements(b: seq<Id>)
    ensures (forall x :: x !in b) ==> b == []
  {
    if b != [] {
      assert b[0] in b;
    }
  }

  /**
   * Two enumerations agree whenever they match the same keys: the workhorse
   * behind every "this listing is unchanged" argument.
   */
  lemma SelectSame<T>(m: map<Id, T>, parent: T -> Id, owners: set<Id>, n: nat,
                      m': map<Id, T>, parent': T -> Id, owners': set<Id>, n': nat)
    requires forall k :: (k < n && k in m && parent(m[k]) in owners)
                         <==> (k < n' && k in m' && parent'(m'[k]) in owners')
    ensures Select(m, parent, owners, n) == Select(m', parent', owners', n')
  {
    var a := Select(m, parent, owners, n);
    var b := Select(m', parent', owners', n');
    SelectComplete(m, parent, owners, n);
    SelectComplete(m', parent', owners', n');
    forall x ensures x in a <==> x in b {
      if x in a {
        var i :| 0 <= i < |a| && a[i] == x;
      }
      if x in b {
        var i :| 0 <= i < |b| && b[i] == x;
      }
    }
    IncreasingUnique(a, b);
  }

  /** One more id below the bound: listed at the end when it matches. */
  lemma SelectNext<T>(m: map<Id, T>, parent: T -> Id, owners: set<Id>, n: nat)
    ensures n in m && parent(m[n]) in owners ==> Select(m, parent, owners, n + 1) == Select(m, parent, owners, n) + [n]
    ensures !(n in m && parent(m[n]) in owners) ==> Select(m, parent, owners, n + 1) == Select(m, parent, owners, n)
  {
  }

  lemma RangeNext(lo: nat, hi: nat)
    requires lo <= hi
    ensures Range(lo, hi + 1) == Range(lo, hi) + [hi]
  {
  }

  /** Rows added under fresh ids with a matching parent are listed after the old ones. */
  lemma {:induction false} SelectAppend<T>(m: map<Id, T>, n: nat, m': map<Id, T>, n': nat,
                                            parent: T -> Id, owners: set<Id>)
    requires n <= n' && Below(m, n)
    requires forall k :: k < n ==> (k in m' <==> k in m)
    requires forall k :: k in m ==> m'[k] == m[k]
    requires forall k :: n <= k < n' ==> k in m' && parent(m'[k]) in owners
    ensures Select(m', parent, owners, n') == Select(m, parent, owners, n) + Range(n, n')
    decreases n' - n
  {
    if n' == n {
      SelectSame(m', parent, owners, n, m, parent, owners, n);
      assert Range(n, n) == [];
    } else {
      var a := Select(m, parent, owners, n);
      SelectAppend(m, n, m', n' - 1, parent, owners);
      SelectNext(m', parent, owners, n' - 1);
      RangeNext(n, n' - 1);
      assert (a + Range(n, n' - 1)) + [n' - 1] == a + (Range(n, n' - 1) + [n' - 1]);
    }
  }

  /** The set of ids a listing mentions. */
  function Elements(r: seq<Id>): set<Id> {
    set x | x in r
  }

  lemma ElementsSnoc(init: seq<Id>, last: Id)
    ensures Elements(init + [last]) == Elements(init) + {last}
  {
    var r := init + [last];
    forall x ensures x in r <==> x in init || x == last {
      if x in r {
        var i :| 0 <= i < |r| && r[i] == x;
        if i < |init| {
          assert init[i] == x;
        }
      }
      if x in init {
        var i :| 0 <= i < |init| && init[i] == x;
        assert r[i] == x;
      }
    }
  }

  /** An increasing listing mentions as many distinct ids as it has entries. */
  lemma {:induction false} IncreasingCard(r: seq<Id>)
    requires Increasing(r)
    ensures |Elements(r)| == |r|
  {
    if |r| == 0 {
      assert Elements(r) == {};
    } else {
      var init := r[..|r| - 1];
      var last := r[|r| - 1];
      IncreasingCard(init);
      assert last !in init by {
        forall i | 0 <= i < |init| ensures init[i] != last {
          assert init[i] == r[i] < r[|r| - 1];
        }
      }
      assert r == init + [last];
      ElementsSnoc(init, last);
    }
  }

  /** How many of `rows` have their parent among `owners`. */
  function Matches<T>(rows: seq<T>, parent: T -> Id, owners: set<Id>): nat {
    if rows == [] then 0
    else Matches(rows[..|rows| - 1], parent, owners) + (if parent(rows[|rows| - 1]) in owners then 1 else 0)
  }

  /** Appending a longer list agrees with appending its prefix on the prefix's ids. */
  lemma AppendPrefix<T>(m: map<Id, T>, n: nat, init: seq<T>, last: T)
    requires Below(m, n)
    ensures var a := Append(m, n, init + [last]);
      var b := Append(m, n, init);
      && (forall k :: k < n + |init| ==> (k in a <==> k in b))
      && (forall k :: k < n + |init| && k in b ==> a[k] == b[k])
      && n + |init| in a && a[n + |init|] == last
  {
    var rows := init + [last];
    var a := Append(m, n, rows);
    var b := Append(m, n, init);
    forall k | k < n + |init| && k in b ensures a[k] == b[k] {
      if k >= n {
        AppendAt(m, n, rows, k);
        AppendAt(m, n, init, k);
        assert rows[k - n] == init[k - n];
      }
    }
    AppendAt(m, n, rows, n + |init|);
    assert rows[|init|] == last;
  }

  /** The row stored under an appended id. */
  lemma AppendAt<T>(m: map<Id, T>, n: nat, rows: seq<T>, k: Id)
    requires n <= k < n + |rows|
    ensures k in Append(m, n, rows) && Append(m, n, rows)[k] == rows[k - n]
  {
  }

  /** The last appended row adds one to a listing exactly when it matches. */
  lemma AppendCountStep<T>(m: map<Id, T>, n: nat, init: seq<T>, last: T, parent: T -> Id, owners: set<Id>)
    requires Below(m, n)
    ensures |Select(Append(m, n, init + [last]), parent, owners, n + |init| + 1)|
            == |Select(Append(m, n, init), parent, owners, n + |init|)| + (if parent(last) in owners then 1 else 0)
  {
    var a := Append(m, n, init + [last]);
    var b := Append(m, n, init);
    var top := n + |init|;
    AppendPrefix(m, n, init, last);
    forall k: Id ensures (k < top && k in a && parent(a[k]) in owners) <==> (k < top && k in b && parent(b[k]) in owners) {
      if k < top && k in b {
        assert a[k] == b[k];
      }
    }
    SelectSame(a, parent, owners, top, b, parent, owners, top);
    SelectNext(a, parent, owners, top);
  }

  /**
   * Appending rows under fresh ids lengthens a listing by exactly the number
   * of appended rows that match it.
   */
  lemma {:induction false} SelectAppendCount<T>(m: map<Id, T>, n: nat, rows: seq<T>,
                                                 parent: T -> Id, owners: set<Id>)
    requires Below(m, n)
    ensures |Select(Append(m, n, rows), parent, owners, n + |rows|)|
            == |Select(m, parent, owners, n)| + Matches(rows, parent, owners)
    decreases |rows|
  {
    if rows == [] {
      assert Append(m, n, rows) == m;
    } else {
      var init := rows[..|rows| - 1];
      var last := rows[|rows| - 1];
      assert rows == init + [last];
      SelectAppendCount(m, n, init, parent, owners);
      AppendCountStep(m, n, init, last, parent, owners);
    }
  }
}
