/** Reconstructing a conversation: reply chain, replies, span fill and the cap around the anchor. */
module Thread {
  import opened Base
  import opened Tables
  import opened Queries

  const THREAD_CAP: nat := 500
  const SPAN_PAD: int := 300

  datatype Result = Result(messages: seq<Message>, truncated: bool)

  // ----- merging and capping -----

  /** What mergeMessages makes of two sets: their union by id, chronological. */
  ghost predicate Merged(r: seq<Message>, a: seq<Message>, b: seq<Message>) {
    Chronological(r) && forall x :: x in r <==> x in a || x in b
  }

  /** All messages come from one table, so equal ids mean equal messages. */
  predicate OneTable(xs: seq<Message>) {
    forall i, j :: 0 <= i < |xs| && 0 <= j < |xs| && xs[i].id == xs[j].id ==> xs[i] == xs[j]
  }

  /** Each id once, as it first appears. */
  function FirstOfEach(xs: seq<Message>): seq<Message> {
    if xs == [] then []
    else
      var n := |xs| - 1;
      var before := FirstOfEach(xs[..n]);
      if HasId(before, xs[n].id) then before else before + [xs[n]]
  }

  predicate HasId(xs: seq<Message>, id: int) {
    exists i :: 0 <= i < |xs| && xs[i].id == id
  }

  lemma HasIdPush(xs: seq<Message>, m: Message, id: int)
    ensures HasId(xs + [m], id) <==> HasId(xs, id) || m.id == id
  {
    var all := xs + [m];
    assert all[|xs|] == m;
    if HasId(xs, id) {
      var i :| 0 <= i < |xs| && xs[i].id == id;
      assert all[i] == xs[i];
    }
    if HasId(all, id) {
      var i :| 0 <= i < |all| && all[i].id == id;
      assert i < |xs| ==> all[i] == xs[i];
    }
  }

  lemma {:induction false} FirstOfEachMeans(xs: seq<Message>)
    ensures DistinctIds(FirstOfEach(xs)) && forall x :: x in FirstOfEach(xs) ==> x in xs
    ensures forall id :: HasId(FirstOfEach(xs), id) <==> HasId(xs, id)
    ensures xs != [] ==> FirstOfEach(xs) != [] && FirstOfEach(xs)[0] == xs[0]
    decreases |xs|
  {
    if xs != [] {
      var n := |xs| - 1;
      var before := FirstOfEach(xs[..n]);
      FirstOfEachMeans(xs[..n]);
      assert xs == xs[..n] + [xs[n]];
      forall id ensures HasId(FirstOfEach(xs), id) <==> HasId(xs, id) {
        HasIdPush(xs[..n], xs[n], id);
        HasIdPush(before, xs[n], id);
      }
      if n > 0 { assert xs[..n][0] == xs[0]; }
    }
  }

  /** When equal ids mean equal messages nothing is lost. */
  lemma NothingLost(xs: seq<Message>)
    requires OneTable(xs)
    ensures forall x :: x in FirstOfEach(xs) <==> x in xs
  {
    FirstOfEachMeans(xs);
    var r := FirstOfEach(xs);
    hide FirstOfEach, DistinctIds;
    forall x | x in xs ensures x in r {
      var k :| 0 <= k < |xs| && xs[k] == x;
      assert HasId(xs, x.id);
      var i :| 0 <= i < |r| && r[i].id == x.id;
      assert r[i] in xs;
      var j :| 0 <= j < |xs| && xs[j] == r[i];
      assert xs[j] == xs[k];
    }
  }

  method Union(a: seq<Message>, b: seq<Message>) returns (res: seq<Message>)
    ensures res == FirstOfEach(a + b)
  {
    var all := a + b;
    var seen: set<int> := {};
    res := [];
    for i := 0 to |all|
      invariant res == FirstOfEach(all[..i])
      invariant forall id :: id in seen <==> HasId(res, id)
    {
      var m := all[i];
      assert all[..i + 1][..i] == all[..i];
      if m.id in seen { continue; }
      forall id ensures HasId(res + [m], id) <==> HasId(res, id) || m.id == id { HasIdPush(res, m, id); }
      seen := seen + {m.id};
      res := res + [m];
    }
    assert all[..|all|] == all;
  }

  /** Whatever it is given, each id once and in order; of one table, exactly the union. */
  method MergeMessages(a: seq<Message>, b: seq<Message>) returns (res: seq<Message>)
    ensures Chronological(res) && DistinctIds(res)
    ensures |res| == |FirstOfEach(a + b)| && forall x :: x in res <==> x in FirstOfEach(a + b)
    ensures OneTable(a + b) ==> Merged(res, a, b)
  {
    var all := Union(a, b);
    FirstOfEachMeans(a + b);
    if OneTable(a + b) { NothingLost(a + b); }
    SortedIsChronological(all);
    SortedDistinct(all);
    hide FirstOfEach, Sorted, Chronological, DistinctIds, OneTable;
    res := Sorted(all);
  }

  lemma SortedDistinct(xs: seq<Message>)
    requires DistinctIds(xs)
    ensures DistinctIds(Sorted(xs))
  {
    SortedIsChronological(xs);
    var s := Sorted(xs);
    hide Sorted;
    forall i, j | 0 <= i < j < |s| ensures s[i].id != s[j].id {
      assert s[i] in s && s[j] in s;
      assert Before(PosOf(s[i]), PosOf(s[j]));
      OneOfAnId(xs, s[i], s[j]);
    }
  }

  function IndexOf(xs: seq<Message>, id: int): (r: int)
    ensures -1 <= r < |xs|
    ensures r >= 0 ==> xs[r].id == id
    ensures r < 0 ==> forall i :: 0 <= i < |xs| ==> xs[i].id != id
  {
    if xs == [] then -1
    else if xs[0].id == id then 0
    else var r := IndexOf(xs[1..], id); if r < 0 then -1 else r + 1
  }

  function Min(a: int, b: int): int { if a < b then a else b }

  function Window(msgs: seq<Message>, at: int): seq<Message>
    requires |msgs| > THREAD_CAP && -1 <= at < |msgs|
  {
    var start := Min(Max(at - THREAD_CAP / 2, 0), |msgs| - THREAD_CAP);
    msgs[start..start + THREAD_CAP]
  }

  function CapAround(msgs: seq<Message>, anchorId: int): seq<Message>
    requires |msgs| > THREAD_CAP
  {
    Window(msgs, IndexOf(msgs, anchorId))
  }

  /** The cap applied to a merged thread. */
  function Capped(msgs: seq<Message>, anchorId: int): Result {
    if |msgs| > THREAD_CAP then Result(CapAround(msgs, anchorId), true) else Result(msgs, false)
  }

  /** However busy the window, the message asked about is never cut. */
  lemma AnchorSurvives(msgs: seq<Message>, at: nat)
    requires DistinctIds(msgs) && at < |msgs|
    ensures msgs[at] in Capped(msgs, msgs[at].id).messages
    ensures |Capped(msgs, msgs[at].id).messages| <= THREAD_CAP
  {
    AnchorAt(msgs, msgs[at], at);
    if |msgs| > THREAD_CAP {
      var start := Min(Max(at - THREAD_CAP / 2, 0), |msgs| - THREAD_CAP);
      assert Capped(msgs, msgs[at].id).messages[at - start] == msgs[at];
    }
  }

  /** What a thread is even when rows were written between the queries that collected it. */
  ghost predicate Anchored(r: Result, anchor: Message, collected: seq<Message>) {
    && anchor in r.messages && DistinctIds(r.messages) && Chronological(r.messages)
    && |r.messages| <= THREAD_CAP
    && (forall x :: x in r.messages ==> x in collected)
    && (r.truncated <==> |FirstOfEach(collected)| > THREAD_CAP)
  }

  lemma SliceKeeps(msgs: seq<Message>, lo: nat, hi: nat)
    requires Chronological(msgs) && DistinctIds(msgs) && lo <= hi <= |msgs|
    ensures Chronological(msgs[lo..hi]) && DistinctIds(msgs[lo..hi])
    ensures forall x :: x in msgs[lo..hi] ==> x in msgs
  {
  }

  lemma CappedKeeps(msgs: seq<Message>, id: int)
    requires Chronological(msgs) && DistinctIds(msgs)
    ensures var r := Capped(msgs, id);
      && Chronological(r.messages) && DistinctIds(r.messages)
      && (forall x :: x in r.messages ==> x in msgs)
  {
    if |msgs| > THREAD_CAP {
      var start := Min(Max(IndexOf(msgs, id) - THREAD_CAP / 2, 0), |msgs| - THREAD_CAP);
      SliceKeeps(msgs, start, start + THREAD_CAP);
      hide Chronological, DistinctIds;
    }
  }

  lemma CappedIsAnchored(msgs: seq<Message>, anchor: Message, collected: seq<Message>)
    requires Chronological(msgs) && DistinctIds(msgs) && anchor in msgs
    requires |msgs| == |FirstOfEach(collected)| && forall x :: x in msgs ==> x in collected
    ensures Anchored(Capped(msgs, anchor.id), anchor, collected)
  {
    var at :| 0 <= at < |msgs| && msgs[at] == anchor;
    AnchorSurvives(msgs, at);
    CappedKeeps(msgs, anchor.id);
    hide FirstOfEach, Chronological, DistinctIds, CapAround, Window, IndexOf;
  }

  /**
   The end of Thread. Whatever states of the table its queries saw, the message asked about is in the
   result as it was first read, every id is there once, in order and within the cap.
   */
  method Assemble(
      core: seq<Message>, filled: seq<Message>, anchor: Message) returns (r: Result, ghost msgs: seq<Message>)
    requires core != [] && core[0] == anchor
    ensures Anchored(r, anchor, core + filled)
    ensures r == Capped(msgs, anchor.id) && (OneTable(core + filled) ==> Merged(msgs, core, filled))
  {
    var merged := MergeMessages(core, filled);
    msgs := merged;
    FirstOfEachMeans(core + filled);
    assert (core + filled)[0] == anchor;
    hide FirstOfEach, Chronological, DistinctIds, OneTable, Merged, Anchored;
    CappedIsAnchored(merged, anchor, core + filled);
    if |merged| > THREAD_CAP {
      r := Result(CapAround(merged, anchor.id), true);
    } else {
      r := Result(merged, false);
    }
  }

  // ----- dropping what the cap would cut anyway -----

  lemma AnchorAt(s: seq<Message>, anchor: Message, at: nat)
    requires DistinctIds(s) && at < |s| && s[at] == anchor
    ensures IndexOf(s, anchor.id) == at
  {
  }

  predicate Far(at: nat, p: nat) {
    p + THREAD_CAP < at || at + THREAD_CAP + 1 < p
  }

  function Without(s: seq<Message>, p: nat): seq<Message>
    requires p < |s|
  {
    s[..p] + s[p + 1..]
  }

  lemma SliceAfter(s: seq<Message>, p: nat, lo: nat, hi: nat)
    requires p < lo <= hi <= |s|
    ensures Without(s, p)[lo - 1..hi - 1] == s[lo..hi]
  {
  }

  lemma SliceBefore(s: seq<Message>, p: nat, lo: nat, hi: nat)
    requires lo <= hi <= p < |s|
    ensures Without(s, p)[lo..hi] == s[lo..hi]
  {
  }

  lemma WindowWithout(s: seq<Message>, at: nat, p: nat)
    requires at < |s| && p < |s| && Far(at, p)
    ensures |s| > THREAD_CAP + 1
    ensures Window(Without(s, p), if p < at then at - 1 else at) == Window(s, at)
  {
    var t := Without(s, p);
    var at' := if p < at then at - 1 else at;
    var start := Min(Max(at - THREAD_CAP / 2, 0), |s| - THREAD_CAP);
    var start' := Min(Max(at' - THREAD_CAP / 2, 0), |t| - THREAD_CAP);
    if p < at {
      assert start' == start - 1 && start' >= p;
      SliceAfter(s, p, start, start + THREAD_CAP);
    } else {
      assert start' == start && start + THREAD_CAP <= p;
      SliceBefore(s, p, start, start + THREAD_CAP);
    }
  }

  /** A message more than the cap away from the anchor is outside the capped window, and so can go. */
  lemma DropFar(s: seq<Message>, anchor: Message, at: nat, p: nat)
    requires DistinctIds(s) && at < |s| && s[at] == anchor && p < |s| && Far(at, p)
    ensures Capped(Without(s, p), anchor.id) == Capped(s, anchor.id)
    ensures Capped(s, anchor.id).truncated
  {
    WindowWithout(s, at, p);
    AnchorAt(s, anchor, at);
    assert Without(s, p)[if p < at then at - 1 else at] == anchor;
    AnchorAt(Without(s, p), anchor, if p < at then at - 1 else at);
  }

  lemma WithoutMeans(s: seq<Message>, p: nat)
    requires Chronological(s) && p < |s|
    ensures Chronological(Without(s, p))
    ensures forall x :: x in Without(s, p) <==> x in s && x != s[p]
  {
    var t := Without(s, p);
    forall x ensures x in t <==> x in s && x != s[p] {
      if x in s && x != s[p] {
        var i :| 0 <= i < |s| && s[i] == x;
        assert x == t[if i < p then i else i - 1];
      }
      if x in t {
        var j :| 0 <= j < |t| && t[j] == x;
        var i := if j < p then j else j + 1;
        assert s[i] == x;
        assert Before(PosOf(s[Min(i, p)]), PosOf(s[Max(i, p)]));
      }
    }
  }

  /** `s` is the chronological union of the three parts. */
  ghost predicate Unites(s: seq<Message>, core: seq<Message>, before: seq<Message>, after: seq<Message>) {
    Chronological(s) && forall x :: x in s <==> x in core || x in before || x in after
  }

  lemma ChronologicalTail(xs: seq<Message>)
    requires Chronological(xs) && xs != []
    ensures Chronological(xs[1..]) && Chronological(xs[..|xs| - 1])
    ensures forall x :: x in xs <==> x == xs[0] || x in xs[1..]
    ensures forall x :: x in xs <==> x == xs[|xs| - 1] || x in xs[..|xs| - 1]
  {
    assert xs == [xs[0]] + xs[1..];
    assert xs == xs[..|xs| - 1] + [xs[|xs| - 1]];
  }

  lemma InOrder(s: seq<Message>, i: nat, j: nat)
    requires Chronological(s) && i < |s| && j < |s|
    ensures Before(PosOf(s[i]), PosOf(s[j])) ==> i < j
    ensures s[i] == s[j] ==> i == j
  {
    if j < i { assert Before(PosOf(s[j]), PosOf(s[i])); }
    if i < j { assert Before(PosOf(s[i]), PosOf(s[j])); }
  }

  lemma InOrderOnce(xs: seq<Message>, p: nat)
    requires Chronological(xs) && p < |xs|
    ensures xs[p] !in xs[..p] && xs[p] !in xs[p + 1..]
  {
  }

  lemma AtMostOnce(xs: seq<Message>, i: nat, j: nat)
    requires Chronological(xs) && i < |xs| && j < |xs| && i != j
    ensures xs[i] != xs[j]
  {
    InOrder(xs, i, j);
  }

  /** A chronological run of messages of `s` from one of them to another leaves room between the two. */
  lemma Room(s: seq<Message>, xs: seq<Message>, lo: nat, hi: nat)
    requires Chronological(s) && Chronological(xs) && xs != [] && lo < |s| && hi < |s|
    requires forall x :: x in xs ==> x in s
    requires s[lo] == xs[0] && s[hi] == xs[|xs| - 1]
    ensures lo + |xs| - 1 <= hi
  {
    assert xs[0] in xs;
    InOrder(s, lo, hi);
    assert |xs| > 1 ==> Before(PosOf(xs[0]), PosOf(xs[|xs| - 1]));
    forall x | x in xs ensures x in s[lo..hi + 1] {
      var i :| 0 <= i < |xs| && xs[i] == x;
      var r :| 0 <= r < |s| && s[r] == x;
      assert i > 0 ==> Before(PosOf(xs[0]), PosOf(x));
      assert i < |xs| - 1 ==> Before(PosOf(x), PosOf(xs[|xs| - 1]));
      InOrder(s, lo, r);
      InOrder(s, r, hi);
      assert s[lo..hi + 1][r - lo] == x;
    }
    FitsIn(xs, s, lo, hi + 1);
  }

  /** The first of too many messages up to the anchor is out of the window's reach. */
  lemma OldestIsFar(s: seq<Message>, before: seq<Message>, anchor: Message) returns (at: nat, p: nat)
    requires Chronological(s) && Chronological(before) && forall x :: x in before ==> x in s
    requires |before| > THREAD_CAP + 1 && before[|before| - 1] == anchor
    ensures at < |s| && p < |s| && s[at] == anchor && s[p] == before[0] && Far(at, p)
  {
    assert before[0] in before && anchor in before;
    p :| 0 <= p < |s| && s[p] == before[0];
    at :| 0 <= at < |s| && s[at] == anchor;
    Room(s, before, p, at);
  }

  /** The last of too many messages after the anchor is out of the window's reach. */
  lemma NewestIsFar(s: seq<Message>, after: seq<Message>, anchor: Message) returns (at: nat, p: nat)
    requires Chronological(s) && Chronological(after) && forall x :: x in after ==> x in s
    requires |after| > THREAD_CAP + 1 && anchor in s && Before(PosOf(anchor), PosOf(after[0]))
    ensures at < |s| && p < |s| && s[at] == anchor && s[p] == after[|after| - 1] && Far(at, p)
  {
    assert after[0] in after && after[|after| - 1] in after;
    p :| 0 <= p < |s| && s[p] == after[|after| - 1];
    var first :| 0 <= first < |s| && s[first] == after[0];
    at :| 0 <= at < |s| && s[at] == anchor;
    Room(s, after, first, p);
    InOrder(s, at, first);
  }

  lemma UnitesWithout(s: seq<Message>, core: seq<Message>, before: seq<Message>, after: seq<Message>, p: nat)
    requires Unites(s, core, before, after) && DistinctIds(s) && p < |s|
    ensures Chronological(Without(s, p)) && DistinctIds(Without(s, p))
    ensures forall x :: x in Without(s, p) <==> (x in core || x in before || x in after) && x != s[p]
  {
    WithoutMeans(s, p);
  }

  /** Dropping the oldest of too many messages up to the anchor. */
  lemma DropOldest(s: seq<Message>, core: seq<Message>, before: seq<Message>, after: seq<Message>, anchor: Message)
    returns (t: seq<Message>)
    requires Unites(s, core, before, after) && DistinctIds(s) && Chronological(before)
    requires |before| > THREAD_CAP + 1 && before[|before| - 1] == anchor
    ensures Unites(t, core, before[1..], after) && DistinctIds(t)
    ensures Capped(t, anchor.id) == Capped(s, anchor.id)
  {
    hide Capped, Without, Far, Chronological, DistinctIds;
    ChronologicalTail(before);
    var x := before[0];
    if x in core || x in after {
      t := s;
    } else {
      var at, p := OldestIsFar(s, before, anchor);
      DropFar(s, anchor, at, p);
      t := Without(s, p);
      UnitesWithout(s, core, before, after, p);
      InOrderOnce(before, 0);
    }
  }

  /** Dropping the newest of too many messages after the anchor. */
  lemma DropNewest(s: seq<Message>, core: seq<Message>, before: seq<Message>, after: seq<Message>, anchor: Message)
    returns (t: seq<Message>)
    requires Unites(s, core, before, after) && DistinctIds(s) && Chronological(after)
    requires |after| > THREAD_CAP + 1 && anchor in s && Before(PosOf(anchor), PosOf(after[0]))
    ensures Unites(t, core, before, after[..|after| - 1]) && DistinctIds(t) && anchor in t
    ensures Capped(t, anchor.id) == Capped(s, anchor.id)
  {
    hide Capped, Without, Chronological, DistinctIds;
    ChronologicalTail(after);
    var x := after[|after| - 1];
    if x in core || x in before {
      t := s;
    } else {
      var at, p := NewestIsFar(s, after, anchor);
      DropFar(s, anchor, at, p);
      t := Without(s, p);
      UnitesWithout(s, core, before, after, p);
      InOrderOnce(after, |after| - 1);
      assert at != p;
      AtMostOnce(s, at, p);
    }
  }

  lemma {:induction false} ThinOldest(
      s: seq<Message>, core: seq<Message>, before: seq<Message>, after: seq<Message>, anchor: Message)
    returns (t: seq<Message>)
    requires Unites(s, core, before, after) && DistinctIds(s) && Chronological(before)
    requires before != [] && before[|before| - 1] == anchor
    ensures Unites(t, core, Last(before, THREAD_CAP + 1), after) && DistinctIds(t)
    ensures Capped(t, anchor.id) == Capped(s, anchor.id)
    decreases |before|
  {
    if |before| <= THREAD_CAP + 1 {
      t := s;
    } else {
      t := DropOldest(s, core, before, after, anchor);
      ChronologicalTail(before);
      t := ThinOldest(t, core, before[1..], after, anchor);
    }
  }

  lemma {:induction false} ThinNewest(
      s: seq<Message>, core: seq<Message>, before: seq<Message>, after: seq<Message>, anchor: Message)
    returns (t: seq<Message>)
    requires Unites(s, core, before, after) && DistinctIds(s) && Chronological(after) && anchor in s
    requires after != [] ==> Before(PosOf(anchor), PosOf(after[0]))
    ensures Unites(t, core, before, First(after, THREAD_CAP + 1)) && DistinctIds(t)
    ensures Capped(t, anchor.id) == Capped(s, anchor.id)
    decreases |after|
  {
    if |after| <= THREAD_CAP + 1 {
      t := s;
    } else {
      t := DropNewest(s, core, before, after, anchor);
      ChronologicalTail(after);
      var rest := after[..|after| - 1];
      assert First(rest, THREAD_CAP + 1) == First(after, THREAD_CAP + 1);
      t := ThinNewest(t, core, before, rest, anchor);
    }
  }

  /**
   The two LIMITs of spanFill lose nothing: capping the union of the core with the bounded fills gives
   the messages and the flag that capping the union with the unbounded fills gives.
   */
  lemma BoundedFillIsExact(
      full: seq<Message>, bounded: seq<Message>, core: seq<Message>,
      before: seq<Message>, after: seq<Message>, anchor: Message)
    requires DistinctIds(full) && Chronological(before) && Chronological(after)
    requires before != [] && before[|before| - 1] == anchor
    requires after != [] ==> Before(PosOf(anchor), PosOf(after[0]))
    requires Unites(full, core, before, after)
    requires Unites(bounded, core, Last(before, THREAD_CAP + 1), First(after, THREAD_CAP + 1))
    ensures Capped(bounded, anchor.id) == Capped(full, anchor.id)
  {
    var t := ThinOldest(full, core, before, after, anchor);
    assert anchor in Last(before, THREAD_CAP + 1);
    var u := ThinNewest(t, core, Last(before, THREAD_CAP + 1), after, anchor);
    ChronologicalUnique(u, bounded);
  }

  // ----- the reply chain -----

  /** `chain` walks from the anchor to the messages replied to, as far as it can without repeating one. */
  predicate IsReplyChain(rows: seq<Message>, anchor: Message, chain: seq<Message>) {
    && chain != [] && chain[0] == anchor
    && (forall i :: 0 <= i < |chain| - 1 ==>
      chain[i].body.replyTo != 0 && RowOf(rows, Key(anchor.chat, chain[i].body.replyTo)) == Some(chain[i + 1]))
    && (forall i, j :: 0 <= i < j < |chain| ==> chain[i].mid != chain[j].mid)
  }

  /** Nothing further up: no reply, a cycle back into the chain, or a message logged before the bot joined. */
  predicate ChainEnds(rows: seq<Message>, chain: seq<Message>)
    requires chain != []
  {
    var last := chain[|chain| - 1];
    || last.body.replyTo == 0
    || (exists i :: 0 <= i < |chain| && chain[i].mid == last.body.replyTo)
    || RowOf(rows, Key(last.chat, last.body.replyTo)).None?
  }

  function Unseen(rows: seq<Message>, seen: set<int>): set<Message> {
    set m | m in rows && m.mid !in seen
  }

  lemma UnseenShrinks(rows: seq<Message>, seen: set<int>, known: set<int>, m: Message)
    requires m in rows && m.mid !in seen && m.mid in known && seen <= known
    ensures Unseen(rows, known) < Unseen(rows, seen)
  {
    assert m in Unseen(rows, seen) && m !in Unseen(rows, known);
  }

  method ReplyChain(rows: seq<Message>, anchor: Message) returns (chain: seq<Message>)
    requires anchor in rows
    ensures IsReplyChain(rows, anchor, chain) && ChainEnds(rows, chain)
    ensures forall m :: m in chain ==> m in rows && m.chat == anchor.chat
  {
    chain := [anchor];
    var seen := {anchor.mid};
    var cur := anchor;
    while cur.body.replyTo != 0 && cur.body.replyTo !in seen
      invariant IsReplyChain(rows, anchor, chain) && cur == chain[|chain| - 1]
      invariant forall m :: m in chain ==> m in rows && m.chat == anchor.chat
      invariant forall id :: id in seen <==> exists i :: 0 <= i < |chain| && chain[i].mid == id
      decreases Unseen(rows, seen)
    {
      var parent := RowOf(rows, Key(cur.chat, cur.body.replyTo));
      if parent.None? { break; }
      assert parent.value in rows && parent.value.mid !in seen;
      ghost var before := chain;
      UnseenShrinks(rows, seen, seen + {parent.value.mid}, parent.value);
      seen := seen + {parent.value.mid};
      chain := chain + [parent.value];
      assert chain[|before|] == parent.value;
      assert forall i :: 0 <= i < |before| ==> chain[i] == before[i];
      cur := parent.value;
    }
  }

  // ----- replies -----

  predicate RepliesTo(m: Message, chat: int, ids: seq<int>) {
    m.chat == chat && m.body.replyTo != 0 && m.body.replyTo in ids
  }

  /** Every reply in the chat to a message of `s` is in `s`. */
  ghost predicate ClosedUnderReplies(rows: seq<Message>, chat: int, s: set<Message>) {
    forall m, p :: m in rows && p in s && m.chat == chat && m.body.replyTo != 0 && m.body.replyTo == p.mid ==> m in s
  }

  /** Nothing is in `xs` that is not in every reply-closed set around `base`. */
  ghost predicate OnlyDescendants(rows: seq<Message>, chat: int, base: seq<Message>, xs: seq<Message>) {
    forall s: set<Message> :: ClosedUnderReplies(rows, chat, s) && (forall m :: m in base ==> m in s) ==>
      forall m :: m in xs ==> m in s
  }

  ghost predicate InChat(rows: seq<Message>, chat: int, xs: seq<Message>) {
    && (forall m :: m in xs ==> m in rows && m.chat == chat)
    && forall i, j :: 0 <= i < j < |xs| ==> xs[i].mid != xs[j].mid
  }

  ghost predicate Mids(ids: set<int>, xs: seq<Message>) {
    forall id :: id in ids <==> exists i :: 0 <= i < |xs| && xs[i].mid == id
  }

  /** Replies to anything but the frontier have been collected. */
  ghost predicate SettledBut(rows: seq<Message>, chat: int, seen: set<int>, frontier: seq<int>) {
    forall m :: m in rows && m.chat == chat && m.body.replyTo != 0 ==>
      m.body.replyTo in seen && m.body.replyTo !in frontier ==> m.mid in seen
  }

  function MidsOf(xs: seq<Message>): (r: seq<int>)
    ensures |r| == |xs|
  {
    seq(|xs|, i requires 0 <= i < |xs| => xs[i].mid)
  }

  predicate HasMid(xs: seq<Message>, mid: int) {
    exists i :: 0 <= i < |xs| && xs[i].mid == mid
  }

  /** What the replies not seen yet add to the collection. */
  function Added(all: seq<Message>, replies: seq<Message>): (r: seq<Message>)
    ensures all <= r
  {
    if replies == [] then all
    else
      var n := |replies| - 1;
      var before := Added(all, replies[..n]);
      if HasMid(before, replies[n].mid) then before else before + [replies[n]]
  }

  /** The collection and the messages whose replies are asked for next. */
  datatype Walk = Walk(all: seq<Message>, frontier: seq<int>)

  function NextRound(rows: seq<Message>, chat: int, w: Walk): Walk {
    var all := Added(w.all, Oldest(rows, (m: Message) => RepliesTo(m, chat, w.frontier), THREAD_CAP));
    Walk(all, MidsOf(all[|w.all|..]))
  }

  function Rounds(rows: seq<Message>, chat: int, chain: seq<Message>, k: nat): Walk {
    if k == 0 then Walk(chain, MidsOf(chain)) else NextRound(rows, chat, Rounds(rows, chat, chain, k - 1))
  }

  predicate GoesOn(w: Walk) {
    w.frontier != [] && |w.all| < THREAD_CAP
  }

  ghost predicate GoesOnUntil(rows: seq<Message>, chat: int, chain: seq<Message>, k: nat) {
    forall j :: 0 <= j < k ==> GoesOn(Rounds(rows, chat, chain, j))
  }

  /** The walk down stops after the first round that adds nothing or reaches the cap. */
  ghost predicate WalksDownTo(rows: seq<Message>, chat: int, chain: seq<Message>, all: seq<Message>) {
    exists k: nat :: GoesOnUntil(rows, chat, chain, k) &&
      !GoesOn(Rounds(rows, chat, chain, k)) && all == Rounds(rows, chat, chain, k).all
  }

  /** One round of replies: those not seen yet join the collection and form the next frontier. */
  method Collect(replies: seq<Message>, collected: seq<Message>, seen: set<int>)
    returns (all: seq<Message>, known: set<int>, frontier: seq<int>)
    requires Mids(seen, collected)
    ensures all == Added(collected, replies) && Mids(known, all) && frontier == MidsOf(all[|collected|..])
  {
    all, known, frontier := collected, seen, [];
    for i := 0 to |replies|
      invariant collected <= all && all == Added(collected, replies[..i]) && Mids(known, all)
      invariant frontier == MidsOf(all[|collected|..])
    {
      var m := replies[i];
      assert replies[..i + 1][..i] == replies[..i];
      if m.mid in known { continue; }
      MidsPush(known, all, m);
      ghost var before := all;
      known := known + {m.mid};
      all := all + [m];
      assert all[|collected|..] == before[|collected|..] + [m];
      frontier := frontier + [m.mid];
    }
    assert replies[..|replies|] == replies;
  }

  lemma MidsPush(ids: set<int>, xs: seq<Message>, m: Message)
    requires Mids(ids, xs)
    ensures Mids(ids + {m.mid}, xs + [m])
  {
    var all := xs + [m];
    assert all[|xs|] == m;
    forall id ensures id in ids + {m.mid} <==> exists i :: 0 <= i < |all| && all[i].mid == id {
      if i :| 0 <= i < |xs| && xs[i].mid == id { assert all[i].mid == id; }
    }
  }

  /** Collecting from the table keeps the collection one of the chat's, whose members all descend from the base. */
  lemma {:induction false} AddedKeeps(
      rows: seq<Message>, chat: int, base: seq<Message>, collected: seq<Message>, replies: seq<Message>)
    requires RowsOk(rows) && InChat(rows, chat, collected) && OnlyDescendants(rows, chat, base, collected)
    requires OnlyDescendants(rows, chat, base, replies)
    requires forall m :: m in replies ==> m in rows && m.chat == chat
    ensures var all := Added(collected, replies);
      && InChat(rows, chat, all) && OnlyDescendants(rows, chat, base, all)
      && forall m :: m in replies ==> m in all
  {
    if replies != [] {
      var n := |replies| - 1;
      var front, m := replies[..n], replies[n];
      assert replies == front + [m];
      hide OnlyDescendants, RowsOk, InChat;
      DescendantsPart(rows, chat, base, front, m);
      AddedKeeps(rows, chat, base, collected, front);
      AddedOne(rows, chat, base, Added(collected, front), m);
    }
  }

  lemma DescendantsPart(rows: seq<Message>, chat: int, base: seq<Message>, front: seq<Message>, m: Message)
    requires OnlyDescendants(rows, chat, base, front + [m])
    ensures OnlyDescendants(rows, chat, base, front) && OnlyDescendants(rows, chat, base, [m])
  {
    assert m in front + [m];
  }

  lemma AddedOne(rows: seq<Message>, chat: int, base: seq<Message>, all: seq<Message>, m: Message)
    requires RowsOk(rows) && InChat(rows, chat, all) && OnlyDescendants(rows, chat, base, all)
    requires OnlyDescendants(rows, chat, base, [m]) && m in rows && m.chat == chat
    ensures HasMid(all, m.mid) ==> m in all
    ensures !HasMid(all, m.mid) ==> InChat(rows, chat, all + [m]) && OnlyDescendants(rows, chat, base, all + [m])
  {
    assert m in [m];
    if HasMid(all, m.mid) { OneRowPerMid(rows, chat, all, m); }
  }

  /** The frontier is what the round added. */
  lemma FrontierIsNew(collected: seq<Message>, all: seq<Message>, seen: set<int>, known: set<int>)
    requires collected <= all && Mids(seen, collected) && Mids(known, all)
    ensures seen <= known && forall id :: id in known <==> id in seen || id in MidsOf(all[|collected|..])
  {
    var n := |collected|;
    var frontier := MidsOf(all[n..]);
    forall id ensures id in known <==> id in seen || id in frontier {
      if id in known {
        var i :| 0 <= i < |all| && all[i].mid == id;
        if i < n { assert collected[i].mid == id; } else { assert frontier[i - n] == id; }
      }
      if id in seen {
        var i :| 0 <= i < n && collected[i].mid == id;
        assert all[i].mid == id;
      }
      if id in frontier {
        var i :| 0 <= i < |frontier| && frontier[i] == id;
        assert all[n + i].mid == id;
      }
    }
  }

  lemma NewIsUnseen(
      rows: seq<Message>, chat: int, collected: seq<Message>, all: seq<Message>, seen: set<int>, known: set<int>)
    requires InChat(rows, chat, all) && collected <= all && |collected| < |all|
    requires Mids(seen, collected) && Mids(known, all)
    ensures var m := all[|collected|]; m in rows && m.mid !in seen && m.mid in known
  {
    var m := all[|collected|];
    assert m in all;
    forall i | 0 <= i < |collected| ensures collected[i].mid != m.mid { assert all[i] == collected[i]; }
  }

  lemma OneRowPerMid(rows: seq<Message>, chat: int, xs: seq<Message>, m: Message)
    requires RowsOk(rows) && InChat(rows, chat, xs) && m in rows && m.chat == chat
    requires exists i :: 0 <= i < |xs| && xs[i].mid == m.mid
    ensures m in xs
  {
    var i :| 0 <= i < |xs| && xs[i].mid == m.mid;
    assert xs[i] in xs;
    var p :| 0 <= p < |rows| && rows[p] == xs[i];
    var q :| 0 <= q < |rows| && rows[q] == m;
    assert KeyOf(rows[p]) == KeyOf(rows[q]);
  }

  /** A reply to something that is in every closed set is in every closed set. */
  lemma RepliesDescend(
      rows: seq<Message>, chat: int, base: seq<Message>, collected: seq<Message>, replies: seq<Message>,
      ids: seq<int>)
    requires OnlyDescendants(rows, chat, base, collected)
    requires forall id :: id in ids ==> exists i :: 0 <= i < |collected| && collected[i].mid == id
    requires forall m :: m in replies ==> m in rows && RepliesTo(m, chat, ids)
    ensures OnlyDescendants(rows, chat, base, replies)
  {
    forall s: set<Message>, m | ClosedUnderReplies(rows, chat, s) && (forall b :: b in base ==> b in s) && m in replies
      ensures m in s
    {
      var i :| 0 <= i < |collected| && collected[i].mid == m.body.replyTo;
      assert collected[i] in s;
    }
  }

  /** The query hit its limit, so the collection is at the cap. */
  lemma FullQueryFillsTheCap(replies: seq<Message>, all: seq<Message>)
    requires Chronological(replies) && |replies| >= THREAD_CAP && forall m :: m in replies ==> m in all
    ensures |all| >= THREAD_CAP
  {
    var s := set m | m in replies;
    DistinctCount(replies);
    var t := set m | m in all;
    assert s <= t;
    SubsetCount(s, t);
    SetOfCount(all);
  }

  lemma {:induction false} DistinctCount(xs: seq<Message>)
    requires Chronological(xs)
    ensures |set m | m in xs| == |xs|
  {
    if xs != [] {
      ChronologicalTail(xs);
      DistinctCount(xs[1..]);
      assert xs[0] !in xs[1..];
      assert (set m | m in xs) == (set m | m in xs[1..]) + {xs[0]};
    }
  }

  lemma {:induction false} SetOfCount(xs: seq<Message>)
    ensures |set m | m in xs| <= |xs|
  {
    if xs != [] {
      SetOfCount(xs[1..]);
      assert (set m | m in xs) == (set m | m in xs[1..]) + {xs[0]};
    }
  }

  lemma SubsetCount(s: set<Message>, t: set<Message>)
    requires s <= t
    ensures |s| <= |t|
  {
    assert t == s + (t - s);
  }

  /** What the walk down keeps: only descendants, and replies to all but the frontier collected below the cap. */
  ghost predicate OnWalk(rows: seq<Message>, chat: int, chain: seq<Message>, w: Walk, seen: set<int>) {
    && InChat(rows, chat, w.all) && Mids(seen, w.all) && chain <= w.all
    && OnlyDescendants(rows, chat, chain, w.all)
    && (forall id :: id in w.frontier ==> id in seen)
    && (|w.all| >= THREAD_CAP || SettledBut(rows, chat, seen, w.frontier))
  }

  /** One query for replies to the frontier and what it adds. */
  method ReplyRound(
      rows: seq<Message>, chat: int, ghost chain: seq<Message>, collected: seq<Message>, seen: set<int>,
      ids: seq<int>)
    returns (all: seq<Message>, known: set<int>, frontier: seq<int>)
    requires RowsOk(rows) && OnWalk(rows, chat, chain, Walk(collected, ids), seen) && |collected| < THREAD_CAP
    ensures Walk(all, frontier) == NextRound(rows, chat, Walk(collected, ids))
    ensures OnWalk(rows, chat, chain, Walk(all, frontier), known) && collected <= all
    ensures frontier != [] ==> Unseen(rows, known) < Unseen(rows, seen)
    ensures frontier == [] ==> known == seen
  {
    hide OnWalk, RowsOk, Unseen, RepliesTo, Added;
    var replies := Oldest(rows, (m: Message) => RepliesTo(m, chat, ids), THREAD_CAP);
    assert Mids(seen, collected) by { ReadWalk(rows, chat, chain, Walk(collected, ids), seen); }
    all, known, frontier := Collect(replies, collected, seen);
    RoundKeeps(rows, chat, chain, Walk(collected, ids), Walk(all, frontier), seen, known);
    RoundProgresses(rows, chat, chain, Walk(collected, ids), Walk(all, frontier), seen, known);
  }

  lemma ReadWalk(rows: seq<Message>, chat: int, chain: seq<Message>, w: Walk, seen: set<int>)
    requires OnWalk(rows, chat, chain, w, seen)
    ensures InChat(rows, chat, w.all) && Mids(seen, w.all) && chain <= w.all
    ensures OnlyDescendants(rows, chat, chain, w.all)
    ensures |w.all| < THREAD_CAP ==> SettledBut(rows, chat, seen, w.frontier)
    ensures forall id :: id in w.frontier ==> id in seen
  {
  }

  lemma RoundKeeps(
      rows: seq<Message>, chat: int, chain: seq<Message>, w: Walk, next: Walk, seen: set<int>, known: set<int>)
    requires RowsOk(rows) && OnWalk(rows, chat, chain, w, seen) && |w.all| < THREAD_CAP
    requires next == NextRound(rows, chat, w) && Mids(known, next.all)
    ensures OnWalk(rows, chat, chain, next, known) && w.all <= next.all
  {
    var replies := Oldest(rows, (m: Message) => RepliesTo(m, chat, w.frontier), THREAD_CAP);
    RepliesAre(rows, chat, w.frontier, replies);
    FrontierReplies(chat, w, replies, seen);
    hide OnlyDescendants, InChat, Oldest, SettledBut, RowsOk, Added, RepliesTo, Mids, MidsOf, Chronological;
    RepliesDescend(rows, chat, chain, w.all, replies, w.frontier);
    AddedKeeps(rows, chat, chain, w.all, replies);
    FrontierIsNew(w.all, next.all, seen, known);
    if |next.all| < THREAD_CAP {
      NoneCutOff(rows, chat, w.frontier, replies, next.all);
      SettledRound(rows, chat, seen, w.frontier, known, next.frontier, next.all);
    }
  }

  /** A reply that a round leaves out is newer than 500 others that it took. */
  lemma RoundTakesTheOldest(rows: seq<Message>, chat: int, w: Walk, m: Message) returns (taken: seq<Message>)
    requires RowsOk(rows) && InChat(rows, chat, w.all)
    requires m in rows && m.chat == chat && m.body.replyTo != 0 && m.body.replyTo in w.frontier
    requires m !in NextRound(rows, chat, w).all
    ensures |taken| == 500 && DistinctIds(taken)
    ensures forall x :: x in taken ==>
      && x in NextRound(rows, chat, w).all && x.body.replyTo in w.frontier
      && (x.sent < m.sent || (x.sent == m.sent && x.id < m.id))
  {
    var keep := (x: Message) => RepliesTo(x, chat, w.frontier);
    var every := Select(rows, keep);
    taken := Oldest(rows, keep, THREAD_CAP);
    SelectMeans(rows, keep);
    ChronologicalMeans(every);
    RepliesAre(rows, chat, w.frontier, taken);
    EveryReplyIn(rows, chat, w.all, taken);
    hide Select, RowsOk, InChat, Added;
    assert m in every && m !in taken;
    var k :| 0 <= k < |every| && every[k] == m;
    forall x | x in taken
      ensures x.sent < m.sent || (x.sent == m.sent && x.id < m.id)
    {
      var i :| 0 <= i < |taken| && taken[i] == x;
      assert every[i] == x && taken[i] != m;
      assert k >= THREAD_CAP;
    }
    SelectDistinct(rows, keep);
  }

  lemma SelectDistinct(rows: seq<Message>, keep: Message -> bool)
    requires RowsOk(rows)
    ensures DistinctIds(Select(rows, keep))
  {
    RowIdsDistinct(rows);
    WhereDistinct(rows, keep);
    SortedDistinct(Where(rows, keep));
  }

  lemma {:induction false} EveryReplyIn(rows: seq<Message>, chat: int, all: seq<Message>, replies: seq<Message>)
    requires RowsOk(rows) && InChat(rows, chat, all) && forall m :: m in replies ==> m in rows && m.chat == chat
    ensures InChat(rows, chat, Added(all, replies)) && forall m :: m in replies ==> m in Added(all, replies)
  {
    if replies != [] {
      var n := |replies| - 1;
      var front, m := replies[..n], replies[n];
      assert replies == front + [m];
      EveryReplyIn(rows, chat, all, front);
      if HasMid(Added(all, front), m.mid) { OneRowPerMid(rows, chat, Added(all, front), m); }
    }
  }

  /** A round that adds something leaves fewer messages unseen. */
  lemma RoundProgresses(
      rows: seq<Message>, chat: int, chain: seq<Message>, w: Walk, next: Walk, seen: set<int>, known: set<int>)
    requires OnWalk(rows, chat, chain, w, seen) && OnWalk(rows, chat, chain, next, known)
    requires w.all <= next.all && next.frontier == MidsOf(next.all[|w.all|..])
    ensures next.frontier != [] ==> Unseen(rows, known) < Unseen(rows, seen)
    ensures next.frontier == [] ==> known == seen
  {
    hide OnlyDescendants, InChat, SettledBut, Unseen, Mids;
    FrontierIsNew(w.all, next.all, seen, known);
    if next.frontier == [] {
      assert forall id :: id in known <==> id in seen;
    } else {
      NewIsUnseen(rows, chat, w.all, next.all, seen, known);
      UnseenShrinks(rows, seen, known, next.all[|w.all|]);
    }
  }

  lemma RepliesAre(rows: seq<Message>, chat: int, ids: seq<int>, replies: seq<Message>)
    requires RowsOk(rows) && replies == Oldest(rows, (m: Message) => RepliesTo(m, chat, ids), THREAD_CAP)
    ensures Chronological(replies)
    ensures forall m :: m in replies ==> m in rows && m.chat == chat && RepliesTo(m, chat, ids)
    ensures |replies| >= THREAD_CAP || forall m :: m in rows && RepliesTo(m, chat, ids) ==> m in replies
  {
    var keep := (m: Message) => RepliesTo(m, chat, ids);
    var every := Select(rows, keep);
    SelectMeans(rows, keep);
    hide Select, RowsOk;
    assert replies == First(every, THREAD_CAP);
    forall m | m in replies ensures m in every { }
    if |replies| < THREAD_CAP {
      assert replies == every;
      forall m | m in rows && RepliesTo(m, chat, ids) ensures m in replies { assert keep(m); }
    }
  }

  lemma FrontierReplies(chat: int, w: Walk, replies: seq<Message>, seen: set<int>)
    requires Mids(seen, w.all) && forall id :: id in w.frontier ==> id in seen
    ensures forall id :: id in w.frontier ==> exists i :: 0 <= i < |w.all| && w.all[i].mid == id
  {
  }

  lemma NoneCutOff(rows: seq<Message>, chat: int, ids: seq<int>, replies: seq<Message>, all: seq<Message>)
    requires |replies| >= THREAD_CAP || forall m :: m in rows && RepliesTo(m, chat, ids) ==> m in replies
    requires Chronological(replies) && (forall m :: m in replies ==> m in all) && |all| < THREAD_CAP
    ensures forall m :: m in rows && RepliesTo(m, chat, ids) ==> m in all
  {
    if |replies| >= THREAD_CAP { FullQueryFillsTheCap(replies, all); }
  }

  /**
   Walks down from the collected messages. Whatever comes back descends from them; below the cap it is
   exactly their reply closure, because a query cut by its limit always fills the cap.
   */
  method AppendReplies(rows: seq<Message>, chat: int, chain: seq<Message>) returns (collected: seq<Message>)
    requires RowsOk(rows) && InChat(rows, chat, chain)
    ensures InChat(rows, chat, collected) && chain <= collected
    ensures OnlyDescendants(rows, chat, chain, collected) && WalksDownTo(rows, chat, chain, collected)
    ensures |collected| < THREAD_CAP ==> ClosedUnderReplies(rows, chat, set m | m in collected)
  {
    collected := chain;
    var seen := set m | m in chain :: m.mid;
    var frontier := seq(|chain|, i requires 0 <= i < |chain| => chain[i].mid);
    ghost var k := 0;
    WalkStarts(rows, chat, chain, seen, frontier);
    hide OnWalk, InChat, OnlyDescendants, RowsOk, Unseen, NextRound, Rounds, GoesOnUntil, WalksDownTo;
    hide ClosedUnderReplies;
    while frontier != [] && |collected| < THREAD_CAP
      invariant OnWalk(rows, chat, chain, Walk(collected, frontier), seen)
      invariant Walk(collected, frontier) == Rounds(rows, chat, chain, k) && GoesOnUntil(rows, chat, chain, k)
      decreases Unseen(rows, seen), |frontier|
    {
      RoundsGoOn(rows, chat, chain, k);
      collected, seen, frontier := ReplyRound(rows, chat, chain, collected, seen, frontier);
      k := k + 1;
    }
    WalkEnds(rows, chat, chain, k, seen);
  }

  lemma RoundsGoOn(rows: seq<Message>, chat: int, chain: seq<Message>, k: nat)
    requires GoesOnUntil(rows, chat, chain, k) && GoesOn(Rounds(rows, chat, chain, k))
    ensures Rounds(rows, chat, chain, k + 1) == NextRound(rows, chat, Rounds(rows, chat, chain, k))
    ensures GoesOnUntil(rows, chat, chain, k + 1)
  {
    hide NextRound;
  }

  lemma WalkEnds(rows: seq<Message>, chat: int, chain: seq<Message>, k: nat, seen: set<int>)
    requires RowsOk(rows) && GoesOnUntil(rows, chat, chain, k)
    requires var w := Rounds(rows, chat, chain, k); !GoesOn(w) && OnWalk(rows, chat, chain, w, seen)
    ensures var all := Rounds(rows, chat, chain, k).all;
      && InChat(rows, chat, all) && chain <= all && OnlyDescendants(rows, chat, chain, all)
      && WalksDownTo(rows, chat, chain, all)
      && (|all| < THREAD_CAP ==> ClosedUnderReplies(rows, chat, set m | m in all))
  {
    var w := Rounds(rows, chat, chain, k);
    hide Rounds, InChat, OnlyDescendants, RowsOk, SettledBut, Mids, ClosedUnderReplies;
    if |w.all| < THREAD_CAP { ClosedWhenSettled(rows, chat, seen, w.all); }
  }

  lemma WalkStarts(rows: seq<Message>, chat: int, chain: seq<Message>, seen: set<int>, frontier: seq<int>)
    requires |frontier| == |chain| && forall i :: 0 <= i < |chain| ==> frontier[i] == chain[i].mid
    requires seen == (set m | m in chain :: m.mid) && InChat(rows, chat, chain)
    ensures OnWalk(rows, chat, chain, Walk(chain, frontier), seen) && frontier == MidsOf(chain)
  {
    forall id ensures id in seen <==> exists i :: 0 <= i < |chain| && chain[i].mid == id {
      if id in seen {
        var m :| m in chain && m.mid == id;
        var i :| 0 <= i < |chain| && chain[i] == m;
        assert frontier[i] == id;
      }
    }
    forall id | id in seen ensures id in frontier {
      var i :| 0 <= i < |chain| && chain[i].mid == id;
      assert frontier[i] == id;
    }
  }

  lemma SettledRound(
      rows: seq<Message>, chat: int, before: set<int>, ids: seq<int>, seen: set<int>, frontier: seq<int>,
      all: seq<Message>)
    requires SettledBut(rows, chat, before, ids) && before <= seen && Mids(seen, all)
    requires forall id :: id in seen <==> id in before || id in frontier
    requires forall m :: m in rows && RepliesTo(m, chat, ids) ==> m in all
    ensures SettledBut(rows, chat, seen, frontier)
  {
    forall m | m in rows && m.chat == chat && m.body.replyTo != 0
      && m.body.replyTo in seen && m.body.replyTo !in frontier
      ensures m.mid in seen
    {
      if m.body.replyTo in ids {
        assert RepliesTo(m, chat, ids) && m in all;
        var i :| 0 <= i < |all| && all[i] == m;
        assert all[i].mid == m.mid;
      }
    }
  }

  lemma ClosedWhenSettled(rows: seq<Message>, chat: int, seen: set<int>, all: seq<Message>)
    requires RowsOk(rows) && InChat(rows, chat, all) && Mids(seen, all) && SettledBut(rows, chat, seen, [])
    ensures ClosedUnderReplies(rows, chat, set m | m in all)
  {
    forall m, p | m in rows && p in all && m.chat == chat && m.body.replyTo != 0 && m.body.replyTo == p.mid
      ensures m in all
    {
      var i :| 0 <= i < |all| && all[i] == p;
      assert all[i].mid == p.mid && p.mid in seen;
      assert m.mid in seen;
      OneRowPerMid(rows, chat, all, m);
    }
  }

  // ----- the span around them -----

  /** The span query: the chat and window, and the forum topic when the anchor has one. */
  predicate InSpan(anchor: Message, chat: int, from: int, to: int, m: Message) {
    m.chat == chat && from <= m.sent <= to && (anchor.body.thread != 0 ==> m.body.thread == anchor.body.thread)
  }

  predicate UpTo(anchor: Message, chat: int, from: int, to: int, m: Message) {
    InSpan(anchor, chat, from, to, m) && (m.sent < anchor.sent || (m.sent == anchor.sent && m.id <= anchor.id))
  }

  predicate Past(anchor: Message, chat: int, from: int, to: int, m: Message) {
    InSpan(anchor, chat, from, to, m) && (m.sent > anchor.sent || (m.sent == anchor.sent && m.id > anchor.id))
  }

  method SpanFill(rows: seq<Message>, chat: int, anchor: Message, from: int, to: int) returns (filled: seq<Message>)
    ensures filled ==
      Newest(rows, m => UpTo(anchor, chat, from, to, m), THREAD_CAP + 1) +
      Oldest(rows, m => Past(anchor, chat, from, to, m), THREAD_CAP + 1)
  {
    var before := Newest(rows, m => UpTo(anchor, chat, from, to, m), THREAD_CAP + 1);
    var after := Oldest(rows, m => Past(anchor, chat, from, to, m), THREAD_CAP + 1);
    filled := before + after;
  }

  ghost predicate IsSpan(core: seq<Message>, from: int, to: int) {
    && (forall m :: m in core ==> from <= m.sent <= to)
    && (exists m :: m in core && m.sent == from)
    && (exists m :: m in core && m.sent == to)
  }

  /** The first and last sent of a set of messages. */
  method SpanOf(core: seq<Message>) returns (from: int, to: int)
    requires core != []
    ensures IsSpan(core, from, to)
  {
    from, to := core[0].sent, core[0].sent;
    assert core[0] in core;
    for i := 1 to |core|
      invariant forall j :: 0 <= j < i ==> from <= core[j].sent <= to
      invariant exists m :: m in core && m.sent == from
      invariant exists m :: m in core && m.sent == to
    {
      assert core[i] in core;
      if core[i].sent < from { from := core[i].sent; }
      if core[i].sent > to { to := core[i].sent; }
    }
  }

  /** The core and everything in its padded span, with no limit, in order. */
  function Unlimited(rows: seq<Message>, core: seq<Message>, anchor: Message, from: int, to: int): seq<Message> {
    Select(rows, m => m in core || InSpan(anchor, anchor.chat, from, to, m))
  }

  /** On one snapshot the anchor's span splits at the anchor, which is the last of the part up to it. */
  lemma SpanSplits(rows: seq<Message>, core: seq<Message>, anchor: Message, from: int, to: int)
    requires RowsOk(rows) && anchor in rows && from <= anchor.sent <= to
    requires forall m :: m in core ==> m in rows
    ensures var before := Select(rows, m => UpTo(anchor, anchor.chat, from, to, m));
      var after := Select(rows, m => Past(anchor, anchor.chat, from, to, m));
      && Chronological(before) && Chronological(after)
      && before != [] && before[|before| - 1] == anchor
      && (after != [] ==> Before(PosOf(anchor), PosOf(after[0])))
      && Unites(Unlimited(rows, core, anchor, from, to), core, before, after)
      && DistinctIds(Unlimited(rows, core, anchor, from, to))
  {
    var upTo := (m: Message) => UpTo(anchor, anchor.chat, from, to, m);
    var past := (m: Message) => Past(anchor, anchor.chat, from, to, m);
    var before, after := Select(rows, upTo), Select(rows, past);
    SelectMeans(rows, upTo);
    SelectMeans(rows, past);
    UnlimitedUnites(rows, core, anchor, from, to);
    hide Select, RowsOk;
    assert anchor in before;
    var i :| 0 <= i < |before| && before[i] == anchor;
    var last := before[|before| - 1];
    assert last in before;
    assert i < |before| - 1 ==> Before(PosOf(anchor), PosOf(last));
    if after != [] { assert after[0] in after; }
  }

  lemma UnlimitedUnites(rows: seq<Message>, core: seq<Message>, anchor: Message, from: int, to: int)
    requires RowsOk(rows) && forall m :: m in core ==> m in rows
    ensures var full := Unlimited(rows, core, anchor, from, to);
      && Unites(full, core, Select(rows, m => UpTo(anchor, anchor.chat, from, to, m)),
           Select(rows, m => Past(anchor, anchor.chat, from, to, m)))
      && DistinctIds(full)
  {
    var upTo := (m: Message) => UpTo(anchor, anchor.chat, from, to, m);
    var past := (m: Message) => Past(anchor, anchor.chat, from, to, m);
    var any := (m: Message) => m in core || InSpan(anchor, anchor.chat, from, to, m);
    SelectMeans(rows, upTo);
    SelectMeans(rows, past);
    SelectMeans(rows, any);
    hide Select;
    var full := Unlimited(rows, core, anchor, from, to);
    forall x ensures x in full <==> x in core || x in Select(rows, upTo) || x in Select(rows, past) {
      assert InSpan(anchor, anchor.chat, from, to, x) <==> upTo(x) || past(x);
    }
    forall j, k | 0 <= j < k < |full| ensures full[j].id != full[k].id {
      assert full[j] in full && full[k] in full;
      OneOf(rows, full[j], full[k]);
      AtMostOnce(full, j, k);
    }
  }

  lemma OneOf(rows: seq<Message>, a: Message, b: Message)
    requires RowsOk(rows) && a in rows && b in rows
    ensures a.id == b.id ==> a == b
  {
  }

  lemma MergedUnites(merged: seq<Message>, core: seq<Message>, filled: seq<Message>, a: seq<Message>, b: seq<Message>)
    requires Merged(merged, core, filled) && forall x :: x in filled <==> x in a || x in b
    ensures Unites(merged, core, a, b)
  {
  }

  /** `core` is what the reply chain and the replies to it give. */
  ghost predicate IsCore(rows: seq<Message>, anchor: Message, chain: seq<Message>, core: seq<Message>) {
    && IsReplyChain(rows, anchor, chain) && ChainEnds(rows, chain) && InChat(rows, anchor.chat, core)
    && chain <= core && WalksDownTo(rows, anchor.chat, chain, core)
    && OnlyDescendants(rows, anchor.chat, chain, core)
    && (|core| < THREAD_CAP ==> ClosedUnderReplies(rows, anchor.chat, set m | m in core))
  }

  /** The core and everything the chat (or topic) saw in its padded span, capped around the anchor. */
  ghost predicate IsThread(rows: seq<Message>, anchor: Message, core: seq<Message>, r: Result) {
    exists from, to :: IsSpan(core, from, to) &&
      r == Capped(Unlimited(rows, core, anchor, from - SPAN_PAD, to + SPAN_PAD), anchor.id)
  }

  /** Sent from five minutes before the first of the core to five minutes after its last, in the anchor's topic. */
  ghost predicate Surrounds(anchor: Message, core: seq<Message>, m: Message) {
    && m.chat == anchor.chat
    && (exists a :: a in core && a.sent - 300 <= m.sent)
    && (exists b :: b in core && m.sent <= b.sent + 300)
    && (anchor.body.thread != 0 ==> m.body.thread == anchor.body.thread)
  }

  /** Nothing but the core and stored messages around it, and all of those unless there are more than 500. */
  ghost predicate HoldsItsSpan(rows: seq<Message>, anchor: Message, core: seq<Message>, r: Result) {
    && (forall m :: m in r.messages ==> m in core || (m in rows && Surrounds(anchor, core, m)))
    && (!r.truncated ==> forall m :: m in core || (m in rows && Surrounds(anchor, core, m)) ==> m in r.messages)
    && (r.truncated ==> |r.messages| == 500) && |r.messages| <= 500
  }

  lemma SpanSurrounds(anchor: Message, core: seq<Message>, from: int, to: int, m: Message)
    requires IsSpan(core, from, to)
    ensures InSpan(anchor, anchor.chat, from - SPAN_PAD, to + SPAN_PAD, m) <==> Surrounds(anchor, core, m)
  {
    if InSpan(anchor, anchor.chat, from - SPAN_PAD, to + SPAN_PAD, m) {
      var a :| a in core && a.sent == from;
      var b :| b in core && b.sent == to;
      assert a.sent - 300 <= m.sent <= b.sent + 300;
    }
  }

  /** What a thread holds, in the fields of its messages. */
  lemma ThreadHolds(rows: seq<Message>, anchor: Message, core: seq<Message>, r: Result)
    requires RowsOk(rows) && IsThread(rows, anchor, core, r) && InChat(rows, anchor.chat, core)
    ensures HoldsItsSpan(rows, anchor, core, r)
  {
    var from, to :| IsSpan(core, from, to) &&
      r == Capped(Unlimited(rows, core, anchor, from - SPAN_PAD, to + SPAN_PAD), anchor.id);
    var all := Unlimited(rows, core, anchor, from - SPAN_PAD, to + SPAN_PAD);
    SelectMeans(rows, m => m in core || InSpan(anchor, anchor.chat, from - SPAN_PAD, to + SPAN_PAD, m));
    forall m ensures InSpan(anchor, anchor.chat, from - SPAN_PAD, to + SPAN_PAD, m) <==> Surrounds(anchor, core, m) {
      SpanSurrounds(anchor, core, from, to, m);
    }
    assert forall m :: m in core ==> m in rows;
    hide Select, RowsOk, InSpan, IsSpan, Surrounds;
    assert forall m :: m in all <==> m in core || (m in rows && Surrounds(anchor, core, m));
    CappedMeans(all, anchor.id);
    hide Unlimited, Capped;
    assert forall m :: m in r.messages ==> m in all;
  }

  /** At most 500 messages go uncut; of more, 500 in a row are kept. */
  lemma CappedMeans(msgs: seq<Message>, id: int)
    ensures var r := Capped(msgs, id);
      && (r.truncated <==> |msgs| > 500)
      && (|msgs| <= 500 ==> r.messages == msgs)
      && (|msgs| > 500 ==> |r.messages| == 500 && exists start :: IsRun(msgs, r.messages, start))
  {
    if |msgs| > THREAD_CAP {
      var start := Min(Max(IndexOf(msgs, id) - THREAD_CAP / 2, 0), |msgs| - THREAD_CAP);
      assert IsRun(msgs, Capped(msgs, id).messages, start);
    }
  }

  /** `run` stands in `msgs` from `start` on. */
  predicate IsRun(msgs: seq<Message>, run: seq<Message>, start: int) {
    0 <= start <= |msgs| - |run| && run == msgs[start..start + |run|]
  }

  /** Of more than 500, the message asked about has 250 before it unless it is nearer to an end. */
  lemma CappedIsCentred(msgs: seq<Message>, at: nat)
    requires DistinctIds(msgs) && at < |msgs| && |msgs| > 500
    ensures var kept := Capped(msgs, msgs[at].id).messages;
      && (250 <= at <= |msgs| - 250 ==> kept == msgs[at - 250..at + 250])
      && (at < 250 ==> kept == msgs[..500])
      && (at > |msgs| - 250 ==> kept == msgs[|msgs| - 500..])
  {
    AnchorAt(msgs, msgs[at], at);
  }

  /** None when the message is not stored. Otherwise exactly what the unlimited span would give. */
  method Thread(rows: seq<Message>, chat: int, mid: int)
    returns (r: Option<Result>, ghost chain: seq<Message>, ghost core: seq<Message>)
    requires RowsOk(rows)
    ensures r.None? <==> !HasRow(rows, Key(chat, mid))
    ensures r.Some? ==>
      var anchor := rows[FindRow(rows, Key(chat, mid))];
      && IsCore(rows, anchor, chain, core) && IsThread(rows, anchor, core, r.value)
      && HoldsItsSpan(rows, anchor, core, r.value)
  {
    var at := FindRow(rows, Key(chat, mid));
    if at < 0 { return None, [], []; }
    var anchor := rows[at];
    var up := ReplyChain(rows, anchor);
    chain := up;
    var all := AppendReplies(rows, chat, up);
    core := all;
    assert anchor == up[0] == all[0];
    var thread := AroundCore(rows, anchor, all);
    ThreadHolds(rows, anchor, all, thread);
    r := Some(thread);
  }

  /** The span of the core, its fill, the merge and the cap. */
  method AroundCore(rows: seq<Message>, anchor: Message, core: seq<Message>) returns (r: Result)
    requires RowsOk(rows) && InChat(rows, anchor.chat, core) && core != [] && core[0] == anchor
    ensures IsThread(rows, anchor, core, r)
  {
    var from, to := SpanOf(core);
    ghost var lo, hi := from - SPAN_PAD, to + SPAN_PAD;
    var filled := SpanFill(rows, anchor.chat, anchor, from - SPAN_PAD, to + SPAN_PAD);
    assert FillFrom(rows, anchor, filled, lo, hi);
    FillIsFromTable(rows, anchor, core, filled, lo, hi);
    ghost var msgs;
    r, msgs := Assemble(core, filled, anchor);
    assert anchor in core;
    BoundedThread(rows, anchor, core, filled, msgs, lo, hi);
    assert IsSpan(core, from, to);
  }

  predicate FillFrom(rows: seq<Message>, anchor: Message, filled: seq<Message>, from: int, to: int) {
    filled ==
      Newest(rows, m => UpTo(anchor, anchor.chat, from, to, m), THREAD_CAP + 1) +
      Oldest(rows, m => Past(anchor, anchor.chat, from, to, m), THREAD_CAP + 1)
  }

  lemma FillMembers(rows: seq<Message>, anchor: Message, filled: seq<Message>, from: int, to: int)
    requires FillFrom(rows, anchor, filled, from, to)
    ensures forall x :: x in filled <==>
      || x in Last(Select(rows, m => UpTo(anchor, anchor.chat, from, to, m)), THREAD_CAP + 1)
      || x in First(Select(rows, m => Past(anchor, anchor.chat, from, to, m)), THREAD_CAP + 1)
  {
    NewestIsLast(rows, m => UpTo(anchor, anchor.chat, from, to, m), THREAD_CAP + 1);
    ReversedMeans(Last(Select(rows, m => UpTo(anchor, anchor.chat, from, to, m)), THREAD_CAP + 1));
  }

  lemma FillIsFromTable(
      rows: seq<Message>, anchor: Message, core: seq<Message>, filled: seq<Message>, from: int, to: int)
    requires RowsOk(rows) && FillFrom(rows, anchor, filled, from, to) && forall m :: m in core ==> m in rows
    ensures OneTable(core + filled)
  {
    FillMembers(rows, anchor, filled, from, to);
    SelectMeans(rows, m => UpTo(anchor, anchor.chat, from, to, m));
    SelectMeans(rows, m => Past(anchor, anchor.chat, from, to, m));
    var all := core + filled;
    forall i | 0 <= i < |all| ensures all[i] in rows {
      if i < |core| { assert all[i] in core; } else { assert all[i] in filled; }
    }
  }

  /** The thread Thread returns is the one it would return without the span limits. */
  lemma BoundedThread(
      rows: seq<Message>, anchor: Message, core: seq<Message>, filled: seq<Message>, msgs: seq<Message>,
      from: int, to: int)
    requires RowsOk(rows) && anchor in rows && from <= anchor.sent <= to
    requires forall m :: m in core ==> m in rows
    requires FillFrom(rows, anchor, filled, from, to) && Merged(msgs, core, filled)
    ensures Capped(msgs, anchor.id) == Capped(Unlimited(rows, core, anchor, from, to), anchor.id)
  {
    var before := Select(rows, m => UpTo(anchor, anchor.chat, from, to, m));
    var after := Select(rows, m => Past(anchor, anchor.chat, from, to, m));
    SpanSplits(rows, core, anchor, from, to);
    FillMembers(rows, anchor, filled, from, to);
    MergedUnites(msgs, core, filled, Last(before, THREAD_CAP + 1), First(after, THREAD_CAP + 1));
    BoundedFillIsExact(Unlimited(rows, core, anchor, from, to), msgs, core, before, after, anchor);
  }

  // ----- what an unflagged thread holds -----

  lemma {:induction false} DistinctMids(xs: seq<Message>)
    requires forall i, j :: 0 <= i < j < |xs| ==> xs[i].mid != xs[j].mid
    ensures |set m | m in xs| == |xs|
  {
    if xs != [] {
      DistinctMids(xs[1..]);
      assert xs[0] !in xs[1..];
      assert (set m | m in xs) == (set m | m in xs[1..]) + {xs[0]};
    }
  }

  /**
   A thread that is not flagged as cut holds the whole core, and every reply to a message of the core,
   unless the core filled the cap to the last message.
   */
  lemma UnflaggedIsClosed(
      rows: seq<Message>, anchor: Message, chain: seq<Message>, core: seq<Message>, r: Result)
    requires RowsOk(rows) && anchor in rows && IsCore(rows, anchor, chain, core)
    requires IsThread(rows, anchor, core, r) && !r.truncated
    ensures (forall m :: m in core ==> m in r.messages) && |core| <= THREAD_CAP
    ensures |core| < THREAD_CAP ==> ClosedUnderReplies(rows, anchor.chat, set m | m in core)
  {
    var from, to :| IsSpan(core, from, to) &&
      r == Capped(Unlimited(rows, core, anchor, from - SPAN_PAD, to + SPAN_PAD), anchor.id);
    SelectMeans(rows, m => m in core || InSpan(anchor, anchor.chat, from - SPAN_PAD, to + SPAN_PAD, m));
    hide Select, RowsOk, OnlyDescendants, WalksDownTo, IsReplyChain, ChainEnds, ClosedUnderReplies, CapAround;
    var all := r.messages;
    assert forall m :: m in core ==> m in all;
    var s, t := set m | m in core, set m | m in all;
    assert s <= t;
    SubsetCount(s, t);
    DistinctMids(core);
    SetOfCount(all);
  }

  /** A message, replies to it that fill the cap, and later one more reply, to the first of those. */
  function CrowdRow(i: nat): Message {
    var replyTo := if i == 0 then 0 else if i < THREAD_CAP then 1 else 2;
    Message(i + 1, 1, i + 1, if i < THREAD_CAP then 0 else 1000, Body(0, replyTo, false, 0, "", ""))
  }

  function Crowd(n: nat): (rows: seq<Message>)
    ensures |rows| == n && forall i :: 0 <= i < n ==> rows[i] == CrowdRow(i)
  {
    seq(n, i requires 0 <= i < n => CrowdRow(i))
  }

  lemma CrowdMeans(n: nat)
    ensures RowsOk(Crowd(n))
    ensures n <= THREAD_CAP ==> Chronological(Crowd(n))
  {
    var rows := Crowd(n);
    forall i, j | 0 <= i < j < n ensures KeyOf(rows[i]) != KeyOf(rows[j]) { }
  }

  /** Of the crowd, exactly the replies to its first message. */
  lemma CrowdReplies()
    ensures var replies := Oldest(Crowd(THREAD_CAP + 1), (m: Message) => RepliesTo(m, 1, [1]), THREAD_CAP);
      replies == Crowd(THREAD_CAP)[1..]
  {
    var rows, keep := Crowd(THREAD_CAP + 1), (m: Message) => RepliesTo(m, 1, [1]);
    var expected := Crowd(THREAD_CAP)[1..];
    CrowdMeans(THREAD_CAP + 1);
    CrowdMeans(THREAD_CAP);
    SelectMeans(rows, keep);
    hide Select, RowsOk;
    forall m ensures m in rows && keep(m) <==> m in expected {
      if m in rows && keep(m) {
        var i :| 0 <= i < |rows| && rows[i] == m;
        assert 0 < i < THREAD_CAP && expected[i - 1] == m;
      }
      if m in expected {
        var i :| 0 <= i < |expected| && expected[i] == m;
        assert rows[i + 1] == m;
      }
    }
    ChronologicalUnique(Select(rows, keep), expected);
  }

  lemma {:induction false} CrowdAdds(k: nat)
    ensures Added(Crowd(1), Crowd(k + 1)[1..]) == Crowd(k + 1)
  {
    var replies := Crowd(k + 1)[1..];
    if k == 0 {
      assert replies == [];
    } else {
      CrowdAdds(k - 1);
      assert replies[..k - 1] == Crowd(k)[1..];
      assert !HasMid(Crowd(k), replies[k - 1].mid);
      assert Crowd(k) + [replies[k - 1]] == Crowd(k + 1);
    }
  }

  lemma CrowdWalk()
    ensures WalksDownTo(Crowd(THREAD_CAP + 1), 1, Crowd(1), Crowd(THREAD_CAP))
  {
    var rows, chain := Crowd(THREAD_CAP + 1), Crowd(1);
    CrowdReplies();
    CrowdAdds(THREAD_CAP - 1);
    assert MidsOf(chain) == [1];
    hide Oldest, Added;
    assert Rounds(rows, 1, chain, 0) == Walk(chain, [1]);
    assert Rounds(rows, 1, chain, 1).all == Crowd(THREAD_CAP);
    assert GoesOnUntil(rows, 1, chain, 1);
  }

  lemma CrowdSpan()
    ensures Unlimited(Crowd(THREAD_CAP + 1), Crowd(THREAD_CAP), CrowdRow(0), -SPAN_PAD, SPAN_PAD) == Crowd(THREAD_CAP)
  {
    var rows, core := Crowd(THREAD_CAP + 1), Crowd(THREAD_CAP);
    var any := (m: Message) => m in core || InSpan(CrowdRow(0), CrowdRow(0).chat, -SPAN_PAD, SPAN_PAD, m);
    CrowdMeans(THREAD_CAP + 1);
    CrowdMeans(THREAD_CAP);
    SelectMeans(rows, any);
    hide Select, RowsOk;
    forall m ensures m in rows && any(m) <==> m in core {
      if m in rows && any(m) {
        var i :| 0 <= i < |rows| && rows[i] == m;
        if i < THREAD_CAP { assert core[i] == m; } else { OutsideCrowd(m); }
      }
      if m in core {
        var i :| 0 <= i < |core| && core[i] == m;
        assert rows[i] == m;
      }
    }
    ChronologicalUnique(Select(rows, any), core);
  }

  lemma OutsideCrowd(m: Message)
    requires m == CrowdRow(THREAD_CAP)
    ensures m !in Crowd(THREAD_CAP) && m.sent > SPAN_PAD
  {
  }

  lemma CrowdIsCore(rows: seq<Message>, core: seq<Message>)
    requires rows == Crowd(THREAD_CAP + 1) && core == Crowd(THREAD_CAP)
    ensures IsCore(rows, rows[0], [rows[0]], core)
  {
    CrowdWalk();
    CrowdIsDescendants(rows, core);
    assert Crowd(1) == [rows[0]];
    hide WalksDownTo, InChat, OnlyDescendants, Crowd, ClosedUnderReplies;
    assert core[0] == rows[0];
    assert rows[0].body.replyTo == 0 && rows[0].chat == 1;
  }

  lemma CrowdIsThread(rows: seq<Message>, core: seq<Message>)
    requires rows == Crowd(THREAD_CAP + 1) && core == Crowd(THREAD_CAP)
    ensures IsThread(rows, rows[0], core, Result(core, false))
  {
    CrowdSpan();
    hide Unlimited;
    assert core[0].sent == 0 && core[0] in core;
    assert IsSpan(core, 0, 0);
    hide IsSpan, Crowd;
    assert Capped(core, rows[0].id) == Result(core, false);
  }

  /** A thread of exactly the cap, not flagged, that lacks a stored reply to one of its messages. */
  lemma FullCoreCanLackAReply()
    ensures var (rows, core) := (Crowd(THREAD_CAP + 1), Crowd(THREAD_CAP));
      && RowsOk(rows) && IsCore(rows, rows[0], [rows[0]], core)
      && IsThread(rows, rows[0], core, Result(core, false))
      && !ClosedUnderReplies(rows, 1, set m | m in core)
  {
    hide IsCore, IsThread, RowsOk;
    var rows, core := Crowd(THREAD_CAP + 1), Crowd(THREAD_CAP);
    CrowdMeans(THREAD_CAP + 1);
    CrowdIsCore(rows, core);
    CrowdIsThread(rows, core);
    OutsideCrowd(rows[THREAD_CAP]);
    var late, first := rows[THREAD_CAP], core[1];
    assert late in rows && first in core && late.body.replyTo == first.mid;
  }

  lemma CrowdIsDescendants(rows: seq<Message>, core: seq<Message>)
    requires rows == Crowd(THREAD_CAP + 1) && core == Crowd(THREAD_CAP)
    ensures InChat(rows, 1, core) && OnlyDescendants(rows, 1, [rows[0]], core)
  {
    forall i | 0 <= i < THREAD_CAP ensures core[i] == rows[i] && rows[i] in rows { }
    forall s: set<Message>, m | ClosedUnderReplies(rows, 1, s) && (forall b :: b in [rows[0]] ==> b in s) && m in core
      ensures m in s
    {
      var i :| 0 <= i < THREAD_CAP && core[i] == m;
      assert rows[0] in [rows[0]];
      assert m in rows && rows[0] in s;
    }
  }
}
