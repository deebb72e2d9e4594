/** Reading a chat backwards page by page while writers keep committing. */
module History {
  import opened Base
  import opened Tables
  import opened Queries

  const HISTORY_DEFAULT_LIMIT: int := 200
  const MAX_LIMIT: int := 1000
  const HISTORY_WINDOW: int := 86400

  function LimitOr(limit: int, default_: int): int {
    if limit <= 0 then default_ else if limit < MAX_LIMIT then limit else MAX_LIMIT
  }

  /** The conditions of a history query; an absent bound is dropped. */
  datatype Range = Range(chats: seq<int>, from: Option<int>, to: Option<int>)

  predicate InRange(r: Range, m: Message) {
    && m.chat in r.chats
    && (r.from.Some? ==> r.from.value <= m.sent)
    && (r.to.Some? ==> m.sent <= r.to.value)
  }

  predicate Older(before: Option<Pos>, m: Message) {
    before.Some? ==> Before(PosOf(m), before.value)
  }

  /** The newest `limit` messages of the range older than the cursor, in chronological order. */
  function Page(rows: seq<Message>, r: Range, before: Option<Pos>, limit: nat): seq<Message> {
    Last(Select(rows, m => InRange(r, m) && Older(before, m)), limit)
  }

  /** Store.History: a non-positive limit means none. */
  method History(rows: seq<Message>, r: Range, before: Option<Pos>, limit: int) returns (msgs: seq<Message>)
    requires RowsOk(rows)
    ensures limit > 0 ==> msgs == Page(rows, r, before, limit)
    ensures limit <= 0 ==> msgs == Select(rows, m => InRange(r, m) && Older(before, m))
  {
    var keep := (m: Message) => InRange(r, m) && Older(before, m);
    SelectMeans(rows, keep);
    if r.chats == [] {
      NothingSelected(rows, keep);
      return [];
    }
    var newest := if limit > 0 then Newest(rows, keep, limit) else Reversed(Select(rows, keep));
    ReversedMeans(Select(rows, keep));
    if limit > 0 {
      NewestIsLast(rows, keep, limit);
      ReversedMeans(Last(Select(rows, keep), limit));
    }
    msgs := Reversed(newest);
  }

  lemma {:induction false} NothingSelected(rows: seq<Message>, keep: Message -> bool)
    requires forall m :: !keep(m)
    ensures Select(rows, keep) == []
  {
    if rows != [] { NothingSelected(rows[..|rows| - 1], keep); }
  }

  /** In one of the chats, within the bounds, both inclusive, and before the cursor. */
  predicate Wanted(r: Range, cursor: Option<Pos>, m: Message) {
    && m.chat in r.chats
    && (r.from.Some? ==> m.sent >= r.from.value) && (r.to.Some? ==> m.sent <= r.to.value)
    && (cursor.Some? ==>
      m.sent < cursor.value.major || (m.sent == cursor.value.major && m.id < cursor.value.minor))
  }

  /** The newest messages wanted, in order, as many as `n` allows. */
  ghost predicate IsPage(rows: seq<Message>, r: Range, cursor: Option<Pos>, n: nat, page: seq<Message>) {
    && Chronological(page) && |page| <= n
    && (forall m :: m in page ==> m in rows && Wanted(r, cursor, m))
    && forall m :: m in rows && Wanted(r, cursor, m) && m !in page ==>
      |page| == n && forall x :: x in page ==> m.sent < x.sent || (m.sent == x.sent && m.id < x.id)
  }

  lemma PageIs(rows: seq<Message>, r: Range, cursor: Option<Pos>, n: nat)
    requires RowsOk(rows) && n > 0
    ensures IsPage(rows, r, cursor, n, Page(rows, r, cursor, n))
  {
    var page := Page(rows, r, cursor, n);
    PageMeans(rows, r, cursor, n);
    forall m ensures Wanted(r, cursor, m) <==> InRange(r, m) && Older(cursor, m) { }
    hide Page, Wanted, RowsOk;
    forall m, x | m in rows && Wanted(r, cursor, m) && m !in page && x in page
      ensures m.sent < x.sent || (m.sent == x.sent && m.id < x.id)
    {
      assert Before(PosOf(m), PosOf(page[0]));
      var i :| 0 <= i < |page| && page[i] == x;
      Ascending(page, 0, i);
    }
  }

  /** get_history: one page and the cursor of the next, when the page is full. */
  method GetHistory(rows: seq<Message>, r: Range, cursor: Option<Pos>, limit: int, now: int)
    returns (msgs: seq<Message>, next: Option<Pos>)
    requires RowsOk(rows)
    ensures var r' := if r.from.None? && r.to.None? && cursor.None? then r.(from := Some(now - HISTORY_WINDOW)) else r;
      msgs == Page(rows, r', cursor, LimitOr(limit, HISTORY_DEFAULT_LIMIT))
    ensures var n := if limit <= 0 then 200 else if limit > 1000 then 1000 else limit;
      var window := r.from.None? && r.to.None? && cursor.None?;
      && IsPage(rows, if window then r.(from := Some(now - 24 * 3600)) else r, cursor, n, msgs)
      && next == if |msgs| == n then Some(Pos(msgs[0].sent, msgs[0].id)) else None
  {
    hide Page, IsPage, RowsOk;
    var r' := r;
    if r.from.None? && r.to.None? && cursor.None? {
      r' := r.(from := Some(now - HISTORY_WINDOW));
    }
    var n := LimitOr(limit, HISTORY_DEFAULT_LIMIT);
    msgs := History(rows, r', cursor, n);
    PageIs(rows, r', cursor, n);
    next := if |msgs| == n then Some(PosOf(msgs[0])) else None;
  }

  // ----- a walk with writers -----

  /** Either some writer commits a batch or the reader fetches the next page, of whatever size it asks for. */
  datatype Event = Write(msgs: seq<Message>) | Fetch(limit: int)

  function PageSize(limit: int): (n: nat)
    ensures 0 < n <= MAX_LIMIT
  {
    LimitOr(limit, HISTORY_DEFAULT_LIMIT)
  }

  /** The table, the reader's cursor, everything it was given (oldest first), and whether it is through. */
  datatype Walk = Walk(rows: seq<Message>, cursor: Option<Pos>, got: seq<Message>, done: bool)

  function Step(w: Walk, r: Range, e: Event): Walk {
    match e
    case Write(msgs) => w.(rows := Apply(w.rows, msgs))
    case Fetch(limit) => Fetched(w, r, PageSize(limit))
  }

  function Fetched(w: Walk, r: Range, n: nat): Walk {
    if w.done then w
    else
      var page := Page(w.rows, r, w.cursor, n);
      Walk(w.rows, if page == [] then w.cursor else Some(PosOf(page[0])), page + w.got, |page| < n)
  }

  function Run(w: Walk, r: Range, events: seq<Event>): Walk {
    if events == [] then w else Step(Run(w, r, events[..|events| - 1]), r, events[|events| - 1])
  }

  /** The message with this id has been handed to the reader. */
  predicate Got(w: Walk, id: int) {
    exists i :: 0 <= i < |w.got| && w.got[i].id == id
  }

  /** A message the table still holds under the same id, key and sent. */
  predicate Stored(rows: seq<Message>, m: Message) {
    1 <= m.id <= |rows| && SameRow(rows[m.id - 1], m)
  }

  predicate AllGenuine(rows: seq<Message>, got: seq<Message>, r: Range) {
    forall i :: 0 <= i < |got| ==> Stored(rows, got[i]) && InRange(r, got[i])
  }

  predicate NoneOlder(got: seq<Message>, cursor: Option<Pos>) {
    forall i :: 0 <= i < |got| ==> !Older(cursor, got[i])
  }

  /** Everything `start` held that the walk has gone past has been handed out. */
  predicate NoneMissed(start: seq<Message>, w: Walk, r: Range) {
    forall i :: 0 <= i < |start| && InRange(r, start[i]) && (w.done || !Older(w.cursor, start[i])) ==>
      Got(w, start[i].id)
  }

  /** What every walk keeps, for the messages `start` held when it began. */
  predicate WalkOk(start: seq<Message>, w: Walk, r: Range) {
    && RowsOk(w.rows) && Extends(start, w.rows)
    && Chronological(w.got)
    && AllGenuine(w.rows, w.got, r)
    && NoneOlder(w.got, w.cursor)
    && (w.cursor.None? ==> w.got == [])
    && NoneMissed(start, w, r)
  }

  lemma WriteKeeps(start: seq<Message>, w: Walk, r: Range, msgs: seq<Message>)
    requires WalkOk(start, w, r)
    ensures WalkOk(start, w.(rows := Apply(w.rows, msgs)), r)
  {
    ApplyKeeps(w.rows, msgs);
    ExtendsTrans(start, w.rows, Apply(w.rows, msgs));
    var after := w.(rows := Apply(w.rows, msgs));
    assert forall id :: Got(w, id) ==> Got(after, id);
  }

  lemma Ascending(xs: seq<Message>, i: nat, j: nat)
    requires Chronological(xs) && i < |xs| && j < |xs|
    ensures i < j ==> Before(PosOf(xs[i]), PosOf(xs[j]))
  {
  }

  /** A page against everything it could have held. */
  lemma PageMeans(rows: seq<Message>, r: Range, before: Option<Pos>, limit: nat)
    requires RowsOk(rows) && limit > 0
    ensures var page := Page(rows, r, before, limit);
      && Chronological(page) && |page| <= limit
      && (forall x :: x in page ==> x in rows && InRange(r, x) && Older(before, x))
      && (forall x :: x in rows && InRange(r, x) && Older(before, x) ==>
        |page| < limit || !Before(PosOf(x), PosOf(page[0])) ==> x in page)
  {
    var keep := (m: Message) => InRange(r, m) && Older(before, m);
    var all := Select(rows, keep);
    var page := Page(rows, r, before, limit);
    SelectMeans(rows, keep);
    assert forall x :: x in page ==> x in all;
    forall x | x in rows && keep(x) && (|page| < limit || !Before(PosOf(x), PosOf(page[0]))) ensures x in page {
      assert x in all;
      var j :| 0 <= j < |all| && all[j] == x;
      if |all| > limit {
        var cut := |all| - limit;
        assert page[0] == all[cut];
        Ascending(all, j, cut);
        assert page[j - cut] == x;
      }
    }
  }

  lemma StoredRow(rows: seq<Message>, x: Message)
    requires RowsOk(rows) && x in rows
    ensures Stored(rows, x) && rows[x.id - 1] == x
  {
  }

  lemma FetchKeeps(start: seq<Message>, w: Walk, r: Range, limit: nat)
    requires WalkOk(start, w, r) && limit > 0 && !w.done
    ensures WalkOk(start, Fetched(w, r, limit), r)
  {
    var page := Page(w.rows, r, w.cursor, limit);
    PageMeans(w.rows, r, w.cursor, limit);
    PageIsGenuine(w, r, limit);
    PageJoins(page, w.got, w.cursor);
    FetchMissesNothing(start, w, r, limit);
  }

  lemma PageIsGenuine(w: Walk, r: Range, limit: nat)
    requires RowsOk(w.rows) && limit > 0
    ensures AllGenuine(w.rows, Page(w.rows, r, w.cursor, limit), r)
  {
    var page := Page(w.rows, r, w.cursor, limit);
    PageMeans(w.rows, r, w.cursor, limit);
    forall i | 0 <= i < |page| ensures Stored(w.rows, page[i]) && InRange(r, page[i]) {
      assert page[i] in page;
      StoredRow(w.rows, page[i]);
    }
  }

  /** A page of older messages goes in front of what was handed out before. */
  lemma PageJoins(page: seq<Message>, got: seq<Message>, cursor: Option<Pos>)
    requires Chronological(page) && Chronological(got) && NoneOlder(got, cursor)
    requires forall x :: x in page ==> Older(cursor, x)
    requires cursor.None? ==> got == []
    ensures Chronological(page + got)
    ensures page != [] ==> NoneOlder(page + got, Some(PosOf(page[0])))
    ensures page == [] ==> NoneOlder(page + got, cursor)
  {
    var all := page + got;
    forall i, j | 0 <= i < j < |all| ensures Before(PosOf(all[i]), PosOf(all[j])) {
      if i < |page| <= j {
        assert all[i] in page;
        assert !Older(cursor, got[j - |page|]);
      }
    }
    forall i | 0 <= i < |all| && page != [] ensures !Older(Some(PosOf(page[0])), all[i]) {
      if i > 0 { assert Before(PosOf(all[0]), PosOf(all[i])); }
    }
  }

  /** What is on the page, or was handed out before, has been handed out. */
  lemma GotEither(page: seq<Message>, got: seq<Message>, x: Message)
    ensures x in page || (exists j :: 0 <= j < |got| && got[j].id == x.id) ==>
      exists j :: 0 <= j < |page + got| && (page + got)[j].id == x.id
  {
    var all := page + got;
    if x in page {
      var j :| 0 <= j < |page| && page[j] == x;
      assert all[j] == x;
    } else if exists j :: 0 <= j < |got| && got[j].id == x.id {
      var j :| 0 <= j < |got| && got[j].id == x.id;
      assert all[|page| + j] == got[j];
    }
  }

  lemma FetchMissesNothing(start: seq<Message>, w: Walk, r: Range, limit: nat)
    requires WalkOk(start, w, r) && limit > 0 && !w.done
    ensures NoneMissed(start, Fetched(w, r, limit), r)
  {
    var page := Page(w.rows, r, w.cursor, limit);
    var after := Fetched(w, r, limit);
    PageMeans(w.rows, r, w.cursor, limit);
    hide Page;
    forall i | 0 <= i < |start| && InRange(r, start[i]) && (after.done || !Older(after.cursor, start[i]))
      ensures Got(after, start[i].id)
    {
      var x := w.rows[i];
      assert x in w.rows && SameRow(x, start[i]);
      assert PosOf(x) == PosOf(start[i]) && InRange(r, x);
      if Older(w.cursor, x) {
        assert x in page;
      } else {
        assert Got(w, start[i].id);
      }
      GotEither(page, w.got, x);
    }
  }

  lemma {:induction false} RunKeeps(start: seq<Message>, r: Range, events: seq<Event>)
    requires RowsOk(start)
    ensures WalkOk(start, Run(Walk(start, None, [], false), r, events), r)
  {
    if events != [] {
      var n := |events| - 1;
      RunKeeps(start, r, events[..n]);
      var w := Run(Walk(start, None, [], false), r, events[..n]);
      match events[n]
      case Write(msgs) => WriteKeeps(start, w, r, msgs);
      case Fetch(limit) => if !w.done { FetchKeeps(start, w, r, PageSize(limit)); }
    }
  }

  /**
   Exactly once: whatever writers commit between pages and whatever size each page has, no message is
   handed out twice, everything handed out is in range, and when a short page ends the walk every message
   of the range that was stored when it began has been handed out.
   */
  lemma HistoryWalkIsExactlyOnce(start: seq<Message>, r: Range, events: seq<Event>)
    requires RowsOk(start)
    ensures var w := Run(Walk(start, None, [], false), r, events);
      && DistinctIds(w.got)
      && (forall i :: 0 <= i < |w.got| ==> InRange(r, w.got[i]) && Stored(w.rows, w.got[i]))
      && (w.done ==> forall i :: 0 <= i < |start| && InRange(r, start[i]) ==> Got(w, start[i].id))
  {
    RunKeeps(start, r, events);
    var w := Run(Walk(start, None, [], false), r, events);
    forall i, j | 0 <= i < j < |w.got| ensures w.got[i].id != w.got[j].id {
      assert Before(PosOf(w.got[i]), PosOf(w.got[j]));
      assert Stored(w.rows, w.got[i]) && Stored(w.rows, w.got[j]);
    }
  }

  /** Every fetch of a full page moves the cursor strictly back, so a walk makes progress within one second. */
  lemma FullPageProgresses(start: seq<Message>, w: Walk, r: Range, limit: nat)
    requires WalkOk(start, w, r) && limit > 0 && !w.done
    ensures var after := Fetched(w, r, limit);
      !after.done ==> after.cursor.Some? && (w.cursor.Some? ==> Before(after.cursor.value, w.cursor.value))
  {
    PageMeans(w.rows, r, w.cursor, limit);
    var page := Page(w.rows, r, w.cursor, limit);
    if |page| == limit { assert page[0] in page; }
  }
}
