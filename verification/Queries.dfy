/** SELECT over the messages table: WHERE, ORDER BY (sent, id) and LIMIT. */
module Queries {
  import opened Tables

  /** A place in an ordering by two columns. */
  datatype Pos = Pos(major: int, minor: int)

  predicate Before(a: Pos, b: Pos) {
    a.major < b.major || (a.major == b.major && a.minor < b.minor)
  }

  function PosOf(m: Message): Pos { Pos(m.sent, m.id) }

  // ----- ordering -----

  function Insert<T>(xs: seq<T>, x: T, key: T -> Pos): seq<T> {
    if xs == [] || Before(key(x), key(xs[0])) then [x] + xs else [xs[0]] + Insert(xs[1..], x, key)
  }

  function Sort<T>(xs: seq<T>, key: T -> Pos): seq<T> {
    if xs == [] then [] else Insert(Sort(xs[1..], key), xs[0], key)
  }

  predicate Ordered<T>(xs: seq<T>, key: T -> Pos) {
    forall i, j :: 0 <= i < j < |xs| ==> !Before(key(xs[j]), key(xs[i]))
  }

  predicate Strict<T>(xs: seq<T>, key: T -> Pos) {
    forall i, j :: 0 <= i < j < |xs| ==> Before(key(xs[i]), key(xs[j]))
  }

  lemma {:induction false} InsertKeeps<T>(xs: seq<T>, x: T, key: T -> Pos)
    ensures multiset(Insert(xs, x, key)) == multiset(xs) + multiset{x}
    ensures Ordered(xs, key) ==> Ordered(Insert(xs, x, key), key)
  {
    if xs != [] && !Before(key(x), key(xs[0])) {
      InsertKeeps(xs[1..], x, key);
      assert xs == [xs[0]] + xs[1..];
      var rest := Insert(xs[1..], x, key);
      if Ordered(xs, key) {
        forall j | 0 <= j < |rest| ensures !Before(key(rest[j]), key(xs[0])) {
          assert rest[j] in multiset(rest);
          assert rest[j] in multiset(xs[1..]) + multiset{x};
          if rest[j] != x {
            assert rest[j] in xs[1..];
          }
        }
      }
    }
  }

  lemma {:induction false} SortKeeps<T>(xs: seq<T>, key: T -> Pos)
    ensures multiset(Sort(xs, key)) == multiset(xs)
    ensures Ordered(Sort(xs, key), key)
    ensures |Sort(xs, key)| == |xs|
    ensures forall x :: x in Sort(xs, key) <==> x in xs
  {
    if xs != [] {
      SortKeeps(xs[1..], key);
      InsertKeeps(Sort(xs[1..], key), xs[0], key);
      assert xs == [xs[0]] + xs[1..];
    }
    SameElements(Sort(xs, key), xs);
  }

  lemma SameElements<T>(a: seq<T>, b: seq<T>)
    requires multiset(a) == multiset(b)
    ensures |a| == |b|
    ensures forall x :: x in a <==> x in b
  {
    assert |multiset(a)| == |a| && |multiset(b)| == |b|;
    forall x ensures x in a <==> x in b {
      assert x in a <==> x in multiset(a);
    }
  }

  // ----- chronological sequences of messages -----

  /** Ascending (sent, id), no message twice. */
  predicate Chronological(xs: seq<Message>) {
    Strict(xs, PosOf)
  }

  /** In the order of the time sent, and of the surrogate id within a second. */
  lemma ChronologicalMeans(xs: seq<Message>)
    ensures Chronological(xs) <==> forall i, j :: 0 <= i < j < |xs| ==>
      xs[i].sent < xs[j].sent || (xs[i].sent == xs[j].sent && xs[i].id < xs[j].id)
  {
    assert forall i, j :: 0 <= i < |xs| && 0 <= j < |xs| ==> (Before(PosOf(xs[i]), PosOf(xs[j])) <==>
      xs[i].sent < xs[j].sent || (xs[i].sent == xs[j].sent && xs[i].id < xs[j].id));
  }

  predicate DistinctIds(xs: seq<Message>) {
    forall i, j :: 0 <= i < j < |xs| ==> xs[i].id != xs[j].id
  }

  function Sorted(xs: seq<Message>): seq<Message> {
    Sort(xs, PosOf)
  }

  lemma SortedIsChronological(xs: seq<Message>)
    requires DistinctIds(xs)
    ensures Chronological(Sorted(xs)) && |Sorted(xs)| == |xs|
    ensures forall x :: x in Sorted(xs) <==> x in xs
  {
    SortKeeps(xs, PosOf);
    var s := Sorted(xs);
    forall i, j | 0 <= i < j < |s| ensures s[i].id != s[j].id {
      OneOfAnId(xs, s[i], s[j]);
      OccursOnce(xs, s[i]);
      OccursTwice(s, i, j);
    }
  }

  lemma OneOfAnId(xs: seq<Message>, a: Message, b: Message)
    requires DistinctIds(xs) && a in xs && b in xs
    ensures a.id == b.id ==> a == b
  {
  }

  lemma OccursOnce(xs: seq<Message>, x: Message)
    requires DistinctIds(xs) && x in xs
    ensures multiset(xs)[x] == 1
  {
    var p :| 0 <= p < |xs| && xs[p] == x;
    assert xs == xs[..p] + [xs[p]] + xs[p + 1..];
    assert x !in xs[..p] && x !in xs[p + 1..];
  }

  lemma OccursTwice(s: seq<Message>, i: nat, j: nat)
    requires i < j < |s|
    ensures s[i] == s[j] ==> multiset(s)[s[i]] >= 2
  {
    assert s == s[..i] + [s[i]] + s[i + 1..j] + [s[j]] + s[j + 1..];
  }

  /** A chronological sequence is determined by what is in it. */
  lemma {:induction false} ChronologicalUnique(a: seq<Message>, b: seq<Message>)
    requires Chronological(a) && Chronological(b)
    requires forall x :: x in a <==> x in b
    ensures a == b
  {
    assert b != [] ==> b[0] in b;
    if a != [] {
      assert a[0] in b;
      var p :| 0 <= p < |b| && b[p] == a[0];
      assert b[0] in a;
      var q :| 0 <= q < |a| && a[q] == b[0];
      assert p == 0;
      forall x ensures x in a[1..] <==> x in b[1..] {
        if x in a[1..] { assert x in a; assert x in b; }
        if x in b[1..] { assert x in b; assert x in a; }
      }
      ChronologicalUnique(a[1..], b[1..]);
      assert a == [a[0]] + a[1..] && b == [b[0]] + b[1..];
    }
  }

  /** Elements of one chronological sequence found inside a slice of another fit in that slice. */
  lemma {:induction false} FitsIn(xs: seq<Message>, s: seq<Message>, lo: nat, hi: nat)
    requires Chronological(xs) && Chronological(s) && lo <= hi <= |s|
    requires forall x :: x in xs ==> x in s[lo..hi]
    ensures |xs| <= hi - lo
    decreases |xs|
  {
    if xs != [] {
      assert xs[0] in xs;
      var p :| lo <= p < hi && s[p] == xs[0];
      forall x | x in xs[1..] ensures x in s[p + 1..hi] {
        var i :| 0 <= i < |xs[1..]| && xs[1..][i] == x;
        assert xs[i + 1] == x && x in xs;
        var r :| lo <= r < hi && s[r] == x;
        assert Before(PosOf(s[p]), PosOf(s[r]));
        assert s[p + 1..hi][r - p - 1] == x;
      }
      FitsIn(xs[1..], s, p + 1, hi);
    }
  }

  // ----- where and limit -----

  function Where<T>(rows: seq<T>, keep: T -> bool): seq<T> {
    if rows == [] then []
    else
      var n := |rows| - 1;
      Where(rows[..n], keep) + (if keep(rows[n]) then [rows[n]] else [])
  }

  lemma {:induction false} WhereMeans<T>(rows: seq<T>, keep: T -> bool)
    ensures forall x :: x in Where(rows, keep) <==> x in rows && keep(x)
    ensures |Where(rows, keep)| <= |rows|
  {
    if rows != [] {
      var n := |rows| - 1;
      WhereMeans(rows[..n], keep);
      assert rows == rows[..n] + [rows[n]];
    }
  }

  lemma WhereOne<T>(x: T, keep: T -> bool)
    ensures Where([x], keep) == if keep(x) then [x] else []
  {
    assert [x][..0] == [];
    assert Where([], keep) == [];
  }

  lemma SortOne<T>(x: T, key: T -> Pos)
    ensures Sort([x], key) == [x]
  {
    assert [x][1..] == [];
    assert Sort([], key) == [];
  }

  lemma {:induction false} WhereDistinct(rows: seq<Message>, keep: Message -> bool)
    requires DistinctIds(rows)
    ensures DistinctIds(Where(rows, keep))
  {
    if rows != [] {
      var n := |rows| - 1;
      WhereDistinct(rows[..n], keep);
      WhereMeans(rows[..n], keep);
      forall x | x in Where(rows[..n], keep) ensures x.id != rows[n].id {
        var i :| 0 <= i < n && rows[..n][i] == x;
        assert rows[i] == x;
      }
    }
  }

  /** Filtering by `a` first does not matter to a `b` that implies it, and leaves nothing to one that excludes it. */
  lemma {:induction false} WhereWhere<T(!new)>(rows: seq<T>, a: T -> bool, b: T -> bool)
    ensures (forall x :: b(x) ==> a(x)) ==> Where(Where(rows, a), b) == Where(rows, b)
    ensures (forall x :: b(x) ==> !a(x)) ==> Where(Where(rows, a), b) == []
  {
    if rows != [] {
      var n := |rows| - 1;
      WhereWhere(rows[..n], a, b);
      if a(rows[n]) {
        var kept := Where(rows[..n], a);
        assert (kept + [rows[n]])[..|kept|] == kept;
      } else {
        assert Where(rows, a) == Where(rows[..n], a);
      }
    }
  }

  /** The first `n` of a sequence, all of it when it is shorter. */
  function First<T>(xs: seq<T>, n: nat): (r: seq<T>)
    ensures |r| == if |xs| < n then |xs| else n
  {
    if |xs| <= n then xs else xs[..n]
  }

  /** The last `n` of a sequence, all of it when it is shorter. */
  function Last<T>(xs: seq<T>, n: nat): (r: seq<T>)
    ensures |r| == if |xs| < n then |xs| else n
  {
    if |xs| <= n then xs else xs[|xs| - n..]
  }

  /** SELECT ... WHERE keep ORDER BY sent, id. */
  function Select(rows: seq<Message>, keep: Message -> bool): seq<Message> {
    Sorted(Where(rows, keep))
  }

  lemma RowIdsDistinct(rows: seq<Message>)
    requires RowsOk(rows)
    ensures DistinctIds(rows)
  {
  }

  lemma SelectMeans(rows: seq<Message>, keep: Message -> bool)
    requires RowsOk(rows)
    ensures Chronological(Select(rows, keep))
    ensures forall x :: x in Select(rows, keep) <==> x in rows && keep(x)
    ensures |Select(rows, keep)| <= |rows|
  {
    RowIdsDistinct(rows);
    WhereMeans(rows, keep);
    WhereDistinct(rows, keep);
    SortedIsChronological(Where(rows, keep));
  }

  function Reversed<T>(xs: seq<T>): (r: seq<T>)
    ensures |r| == |xs|
    ensures forall i :: 0 <= i < |xs| ==> r[i] == xs[|xs| - 1 - i]
  {
    seq(|xs|, i requires 0 <= i < |xs| => xs[|xs| - 1 - i])
  }

  lemma ReversedMeans<T>(xs: seq<T>)
    ensures forall x :: x in Reversed(xs) <==> x in xs
    ensures Reversed(Reversed(xs)) == xs
  {
    var r := Reversed(xs);
    forall x | x in xs ensures x in r {
      var i :| 0 <= i < |xs| && xs[i] == x;
      assert r[|xs| - 1 - i] == x;
    }
  }

  /** SELECT ... ORDER BY sent, id LIMIT n. */
  function Oldest(rows: seq<Message>, keep: Message -> bool, n: nat): seq<Message> {
    First(Select(rows, keep), n)
  }

  /** SELECT ... ORDER BY sent DESC, id DESC LIMIT n. */
  function Newest(rows: seq<Message>, keep: Message -> bool, n: nat): seq<Message> {
    First(Reversed(Select(rows, keep)), n)
  }

  lemma NewestIsLast(rows: seq<Message>, keep: Message -> bool, n: nat)
    ensures Newest(rows, keep, n) == Reversed(Last(Select(rows, keep), n))
  {
  }
}
