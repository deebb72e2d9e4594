/**
 The cache of each public chat's newest message, kept by writers that first commit and then note:
 whenever every committed batch has been noted, the cache is the table's answer.
 */
module Latest {
  import opened Base
  import opened Tables

  type Cache = map<int, Message>

  /** One message folded into the cache. */
  function NoteOne(tracked: set<int>, latest: Cache, m: Message): Cache {
    if m.chat !in tracked then latest
    else if m.chat in latest && m.mid < latest[m.chat].mid then latest
    else
      latest[m.chat :=
        if m.chat in latest && m.mid == latest[m.chat].mid then m.(sent := latest[m.chat].sent) else m]
  }

  /** noteLatest */
  function Note(tracked: set<int>, latest: Cache, msgs: seq<Message>): Cache {
    if msgs == [] then latest
    else NoteOne(tracked, Note(tracked, latest, msgs[..|msgs| - 1]), msgs[|msgs| - 1])
  }

  /** The stored row of a chat with the highest message id. */
  function NewestRow(rows: seq<Message>, chat: int): (r: Option<Message>)
    ensures r.None? ==> forall i :: 0 <= i < |rows| ==> rows[i].chat != chat
    ensures r.Some? ==> r.value in rows && r.value.chat == chat
    ensures r.Some? ==> forall i :: 0 <= i < |rows| && rows[i].chat == chat ==> rows[i].mid <= r.value.mid
  {
    if rows == [] then None
    else
      var n := |rows| - 1;
      var best := NewestRow(rows[..n], chat);
      if rows[n].chat == chat && (best.None? || best.value.mid < rows[n].mid) then Some(rows[n]) else best
  }

  /** Equal but for the surrogate id. */
  predicate SameButId(a: Message, b: Message) {
    a.(id := 0) == b.(id := 0)
  }

  predicate Agrees(cached: Option<Message>, stored: Option<Message>) {
    match cached
    case None => stored.None?
    case Some(m) => stored.Some? && SameButId(m, stored.value)
  }

  function Cached(latest: Cache, chat: int): Option<Message> {
    if chat in latest then Some(latest[chat]) else None
  }

  /** Only chats with a stored row are cached. */
  predicate Stored(rows: seq<Message>, latest: Cache) {
    forall chat :: chat in latest ==> NewestRow(rows, chat).Some?
  }

  lemma NewestExists(rows: seq<Message>, i: nat)
    requires i < |rows|
    ensures NewestRow(rows, rows[i].chat).Some?
  {
  }

  lemma StoredStays(rows: seq<Message>, after: seq<Message>, latest: Cache)
    requires Stored(rows, latest) && Extends(rows, after)
    ensures Stored(after, latest)
  {
    forall chat | chat in latest ensures NewestRow(after, chat).Some? {
      var m := NewestRow(rows, chat).value;
      var i :| 0 <= i < |rows| && rows[i] == m;
      assert after[i].chat == chat;
      NewestExists(after, i);
    }
  }

  lemma {:induction false} NoteStored(tracked: set<int>, latest: Cache, msgs: seq<Message>, rows: seq<Message>)
    requires Stored(rows, latest) && forall i :: 0 <= i < |msgs| ==> HasRow(rows, KeyOf(msgs[i]))
    ensures Stored(rows, Note(tracked, latest, msgs))
  {
    if msgs != [] {
      var n := |msgs| - 1;
      forall i | 0 <= i < n ensures HasRow(rows, KeyOf(msgs[..n][i])) { assert msgs[..n][i] == msgs[i]; }
      NoteStored(tracked, latest, msgs[..n], rows);
      assert HasRow(rows, KeyOf(msgs[n]));
      var i :| 0 <= i < |rows| && KeyOf(rows[i]) == KeyOf(msgs[n]);
      NewestExists(rows, i);
    }
  }

  /** A committed and noted batch keeps every cached chat stored. */
  lemma BatchKeepsStored(tracked: set<int>, rows: seq<Message>, latest: Cache, msgs: seq<Message>)
    requires RowsOk(rows) && Stored(rows, latest)
    ensures Stored(Apply(rows, msgs), Note(tracked, latest, msgs))
  {
    ApplyKeeps(rows, msgs);
    hide RowsOk, Apply, Stored, Note, HasRow;
    StoredStays(rows, Apply(rows, msgs), latest);
    NoteStored(tracked, latest, msgs, Apply(rows, msgs));
  }

  // ----- writers in flight -----

  /** The table, the cache, and the batches committed but not yet noted. */
  datatype State = State(rows: seq<Message>, latest: Cache, open: seq<seq<Message>>)

  datatype Event = Committed(msgs: seq<Message>) | Noted(i: nat)

  predicate Disjoint(a: seq<Message>, b: seq<Message>) {
    forall i, j :: 0 <= i < |a| && 0 <= j < |b| ==> KeyOf(a[i]) != KeyOf(b[j])
  }

  /** A batch may commit while others are in flight only when it shares no message with them. */
  predicate Enabled(s: State, e: Event) {
    match e
    case Committed(msgs) => forall b :: b in s.open ==> Disjoint(b, msgs)
    case Noted(i) => i < |s.open|
  }

  function Step(tracked: set<int>, s: State, e: Event): State
    requires Enabled(s, e)
  {
    match e
    case Committed(msgs) => State(Apply(s.rows, msgs), s.latest, s.open + [msgs])
    case Noted(i) => State(s.rows, Note(tracked, s.latest, s.open[i]), s.open[..i] + s.open[i + 1..])
  }

  /** A run of steps each enabled when it is taken. */
  predicate IsRun(tracked: set<int>, start: State, events: seq<Event>, end: State)
    decreases |events|
  {
    if events == [] then end == start
    else Enabled(start, events[0]) && IsRun(tracked, Step(tracked, start, events[0]), events[1..], end)
  }

  // ----- the invariant -----

  ghost predicate InFlight(open: seq<seq<Message>>, k: Key) {
    exists b :: b in open && Mentions(b, k)
  }

  ghost predicate Covered(latest: Cache, k: Key) {
    k.chat in latest && k.mid <= latest[k.chat].mid
  }

  /** The table holds each in-flight batch's own last word on every message it carries. */
  ghost predicate OpenStored(s: State) {
    && (forall b, k :: b in s.open && Mentions(b, k) ==> HasRow(s.rows, k))
    && (forall b, r :: b in s.open && 0 <= r < |s.rows| && Mentions(b, KeyOf(s.rows[r])) ==>
      LastBody(b, KeyOf(s.rows[r])) == Some(s.rows[r].body))
  }

  ghost predicate OpenDisjoint(open: seq<seq<Message>>) {
    forall i, j :: 0 <= i < j < |open| ==> Disjoint(open[i], open[j])
  }

  /** Every stored message of a tracked chat is in flight or not newer than the cached one. */
  ghost predicate AllCovered(loaded: set<int>, s: State) {
    forall r :: 0 <= r < |s.rows| && s.rows[r].chat in loaded ==>
      InFlight(s.open, KeyOf(s.rows[r])) || Covered(s.latest, KeyOf(s.rows[r]))
  }

  /** A stored row a cached message stands for: same sent, and same body unless a newer one is in flight. */
  ghost predicate BackedBy(s: State, m: Message, row: Message) {
    KeyOf(row) == KeyOf(m) && row.sent == m.sent && (row.body == m.body || InFlight(s.open, KeyOf(m)))
  }

  ghost predicate Genuine(s: State, chat: int)
    requires chat in s.latest
  {
    && s.latest[chat].chat == chat
    && exists r :: 0 <= r < |s.rows| && BackedBy(s, s.latest[chat], s.rows[r])
  }

  /** A message in flight and newer than the cached one was first stored by its own batch. */
  ghost predicate NewcomersDated(loaded: set<int>, s: State) {
    forall b, r :: b in s.open && 0 <= r < |s.rows| && Mentions(b, KeyOf(s.rows[r])) ==>
      s.rows[r].chat in loaded && !Covered(s.latest, KeyOf(s.rows[r])) ==>
        FirstSent(b, KeyOf(s.rows[r])) == Some(s.rows[r].sent)
  }

  /** `loaded` are the tracked chats whose newest row TrackLatest could load. */
  ghost predicate Inv(tracked: set<int>, loaded: set<int>, s: State) {
    && loaded <= tracked
    && RowsOk(s.rows)
    && OpenStored(s)
    && OpenDisjoint(s.open)
    && AllCovered(loaded, s)
    && (forall chat :: chat in s.latest && chat in loaded ==> Genuine(s, chat))
    && NewcomersDated(loaded, s)
  }

  /** With nothing in flight the cache answers as the table would. */
  lemma QuietMeansCurrent(tracked: set<int>, loaded: set<int>, s: State, chat: int)
    requires Inv(tracked, loaded, s) && s.open == [] && chat in loaded
    ensures Agrees(Cached(s.latest, chat), NewestRow(s.rows, chat))
  {
    var newest := NewestRow(s.rows, chat);
    if newest.Some? {
      var r :| 0 <= r < |s.rows| && s.rows[r] == newest.value;
      assert InFlight(s.open, KeyOf(s.rows[r])) || Covered(s.latest, KeyOf(s.rows[r]));
    }
    if chat in s.latest {
      assert Genuine(s, chat);
      var r :| 0 <= r < |s.rows| && BackedBy(s, s.latest[chat], s.rows[r]);
      assert newest.Some? && newest.value.mid == s.rows[r].mid;
      var q :| 0 <= q < |s.rows| && s.rows[q] == newest.value;
      assert KeyOf(s.rows[q]) == KeyOf(s.rows[r]);
    }
  }

  lemma CommitKeeps(tracked: set<int>, loaded: set<int>, s: State, msgs: seq<Message>)
    requires Inv(tracked, loaded, s) && Enabled(s, Committed(msgs))
    ensures Inv(tracked, loaded, Step(tracked, s, Committed(msgs)))
  {
    var t := Step(tracked, s, Committed(msgs));
    ApplyKeeps(s.rows, msgs);
    CommitStored(tracked, loaded, s, msgs, t);
    CommitCovers(tracked, loaded, s, msgs, t);
    CommitGenuine(tracked, loaded, s, msgs, t);
    CommitDates(tracked, loaded, s, msgs, t);
    forall i, j | 0 <= i < j < |t.open| ensures Disjoint(t.open[i], t.open[j]) {
      if j == |s.open| { assert s.open[i] in s.open; }
    }
  }

  lemma NotBoth(a: seq<Message>, b: seq<Message>, k: Key)
    requires Disjoint(a, b) && Mentions(a, k)
    ensures !Mentions(b, k)
  {
  }

  lemma CommitStored(tracked: set<int>, loaded: set<int>, s: State, msgs: seq<Message>, t: State)
    requires Inv(tracked, loaded, s) && Enabled(s, Committed(msgs)) && t == Step(tracked, s, Committed(msgs))
    ensures OpenStored(t)
  {
    ApplyKeeps(s.rows, msgs);
    forall b, k | b in t.open && Mentions(b, k) ensures HasRow(t.rows, k) {
      if b in s.open {
        assert HasRow(s.rows, k);
        var r :| 0 <= r < |s.rows| && KeyOf(s.rows[r]) == k;
        assert KeyOf(t.rows[r]) == k;
      }
    }
    forall b, r | b in t.open && 0 <= r < |t.rows| && Mentions(b, KeyOf(t.rows[r]))
      ensures LastBody(b, KeyOf(t.rows[r])) == Some(t.rows[r].body)
    {
      var k := KeyOf(t.rows[r]);
      ApplyBodies(s.rows, msgs, r);
      MentionsMeans(msgs, k);
      if b in s.open { NotBoth(b, msgs, k); }
    }
  }

  lemma CommitCovers(tracked: set<int>, loaded: set<int>, s: State, msgs: seq<Message>, t: State)
    requires Inv(tracked, loaded, s) && Enabled(s, Committed(msgs)) && t == Step(tracked, s, Committed(msgs))
    ensures AllCovered(loaded, t)
  {
    ApplyKeeps(s.rows, msgs);
    assert msgs in t.open;
    forall r | 0 <= r < |t.rows| && t.rows[r].chat in loaded
      ensures InFlight(t.open, KeyOf(t.rows[r])) || Covered(t.latest, KeyOf(t.rows[r]))
    {
      ApplyOnly(s.rows, msgs, r);
      if r < |s.rows| {
        assert KeyOf(s.rows[r]) == KeyOf(t.rows[r]);
        StillInFlight(s.open, t.open, KeyOf(s.rows[r]));
      }
    }
  }

  lemma StillInFlight(open: seq<seq<Message>>, more: seq<seq<Message>>, k: Key)
    requires forall b :: b in open ==> b in more
    ensures InFlight(open, k) ==> InFlight(more, k)
  {
  }

  lemma CommitGenuine(tracked: set<int>, loaded: set<int>, s: State, msgs: seq<Message>, t: State)
    requires Inv(tracked, loaded, s) && Enabled(s, Committed(msgs)) && t == Step(tracked, s, Committed(msgs))
    ensures forall chat :: chat in t.latest && chat in loaded ==> Genuine(t, chat)
  {
    ApplyKeeps(s.rows, msgs);
    assert msgs in t.open;
    forall chat | chat in t.latest && chat in loaded ensures Genuine(t, chat) {
      assert Genuine(s, chat);
      var m := s.latest[chat];
      var r :| 0 <= r < |s.rows| && BackedBy(s, m, s.rows[r]);
      assert KeyOf(t.rows[r]) == KeyOf(m) && t.rows[r].sent == m.sent;
      StillInFlight(s.open, t.open, KeyOf(m));
      ApplyBodies(s.rows, msgs, r);
      MentionsMeans(msgs, KeyOf(m));
      assert BackedBy(t, m, t.rows[r]);
    }
  }

  lemma NotInFlight(open: seq<seq<Message>>, msgs: seq<Message>, k: Key)
    requires forall b :: b in open ==> Disjoint(b, msgs)
    ensures InFlight(open, k) ==> !Mentions(msgs, k)
  {
    if InFlight(open, k) {
      var b :| b in open && Mentions(b, k);
      NotBoth(b, msgs, k);
    }
  }

  lemma CommitDates(tracked: set<int>, loaded: set<int>, s: State, msgs: seq<Message>, t: State)
    requires Inv(tracked, loaded, s) && Enabled(s, Committed(msgs)) && t == Step(tracked, s, Committed(msgs))
    ensures NewcomersDated(loaded, t)
  {
    ApplyKeeps(s.rows, msgs);
    forall b, r | b in t.open && 0 <= r < |t.rows| && Mentions(b, KeyOf(t.rows[r]))
      && t.rows[r].chat in loaded && !Covered(t.latest, KeyOf(t.rows[r]))
      ensures FirstSent(b, KeyOf(t.rows[r])) == Some(t.rows[r].sent)
    {
      var k := KeyOf(t.rows[r]);
      if r < |s.rows| {
        assert KeyOf(s.rows[r]) == k && s.rows[r].sent == t.rows[r].sent;
        NotInFlight(s.open, msgs, k);
        assert b in s.open;
      } else {
        ApplySents(s.rows, msgs, r);
        ApplyOnly(s.rows, msgs, r);
        if b in s.open { NotBoth(b, msgs, k); }
      }
    }
  }

  // ----- what noting a batch does -----

  /** The cached message after noting a batch that reached it. */
  ghost predicate FromBatch(latest: Cache, msgs: seq<Message>, m: Message) {
    var k := KeyOf(m);
    && Mentions(msgs, k)
    && LastBody(msgs, k) == Some(m.body)
    && (if k.chat in latest && latest[k.chat].mid == k.mid then m.sent == latest[k.chat].sent
        else FirstSent(msgs, k) == Some(m.sent))
  }

  ghost predicate NotedChat(tracked: set<int>, latest: Cache, msgs: seq<Message>, chat: int) {
    var after := Note(tracked, latest, msgs);
    && (chat in latest ==> chat in after && latest[chat].mid <= after[chat].mid)
    && (forall k :: Mentions(msgs, k) && k.chat == chat ==> Covered(after, k))
    && (chat in after ==> after[chat].chat == chat)
    && (chat in after && !FromBatch(latest, msgs, after[chat]) ==>
      && chat in latest && after[chat] == latest[chat]
      && forall k :: Mentions(msgs, k) && k.chat == chat ==> k.mid < latest[chat].mid)
  }

  lemma MentionsPush(msgs: seq<Message>, m: Message, k: Key)
    ensures Mentions(msgs + [m], k) <==> Mentions(msgs, k) || KeyOf(m) == k
  {
    var all := msgs + [m];
    assert all[|msgs|] == m;
    if Mentions(msgs, k) {
      var i :| 0 <= i < |msgs| && KeyOf(msgs[i]) == k;
      assert KeyOf(all[i]) == k;
    }
    if Mentions(all, k) && KeyOf(m) != k {
      var i :| 0 <= i < |all| && KeyOf(all[i]) == k;
      assert KeyOf(msgs[i]) == k;
    }
  }

  /** Chats nobody tracks are not cached by noting. */
  lemma {:induction false} NoteSkipsUntracked(tracked: set<int>, latest: Cache, msgs: seq<Message>, chat: int)
    requires chat !in tracked
    ensures Cached(Note(tracked, latest, msgs), chat) == Cached(latest, chat)
  {
    if msgs != [] { NoteSkipsUntracked(tracked, latest, msgs[..|msgs| - 1], chat); }
  }

  lemma {:induction false} NoteMeans(tracked: set<int>, latest: Cache, msgs: seq<Message>, chat: int)
    requires chat in tracked && (chat in latest ==> latest[chat].chat == chat)
    ensures NotedChat(tracked, latest, msgs, chat)
  {
    if msgs != [] {
      var n := |msgs| - 1;
      NoteMeans(tracked, latest, msgs[..n], chat);
      assert msgs == msgs[..n] + [msgs[n]];
      NoteStep(tracked, latest, msgs[..n], msgs[n], chat);
    }
  }

  lemma NoteStep(tracked: set<int>, latest: Cache, msgs: seq<Message>, m: Message, chat: int)
    requires chat in tracked && (chat in latest ==> latest[chat].chat == chat)
    requires NotedChat(tracked, latest, msgs, chat)
    ensures NotedChat(tracked, latest, msgs + [m], chat)
  {
    var all := msgs + [m];
    assert all[..|msgs|] == msgs && all[|msgs|] == m;
    var before := Note(tracked, latest, msgs);
    var after := Note(tracked, latest, all);
    assert after == NoteOne(tracked, before, m);
    forall k ensures Mentions(all, k) <==> Mentions(msgs, k) || KeyOf(m) == k { MentionsPush(msgs, m, k); }
    MentionsMeans(msgs, KeyOf(m));
    if m.chat == chat {
      if chat in before && m.mid < before[chat].mid {
        assert after[chat] == before[chat];
      } else {
        assert after[chat].mid == m.mid && KeyOf(after[chat]) == KeyOf(m);
        assert FromBatch(latest, all, after[chat]);
      }
    } else {
      assert chat in after <==> chat in before;
    }
  }

  lemma NotedKeeps(tracked: set<int>, loaded: set<int>, s: State, i: nat)
    requires Inv(tracked, loaded, s) && Enabled(s, Noted(i))
    ensures Inv(tracked, loaded, Step(tracked, s, Noted(i)))
  {
    hide RowsOk;
    var t := Step(tracked, s, Noted(i));
    var b := s.open[i];
    assert b in s.open;
    forall c | c in t.open ensures c in s.open && Disjoint(c, b) { Remaining(s.open, i, c); }
    forall x, y | 0 <= x < y < |t.open| ensures Disjoint(t.open[x], t.open[y]) {
      assert t.open[x] == s.open[if x < i then x else x + 1] && t.open[y] == s.open[if y < i then y else y + 1];
    }
    forall chat | chat in loaded ensures NotedChat(tracked, s.latest, b, chat) {
      if chat in s.latest { assert Genuine(s, chat); }
      NoteMeans(tracked, s.latest, b, chat);
    }
    forall r | 0 <= r < |t.rows| && t.rows[r].chat in loaded
      ensures InFlight(t.open, KeyOf(t.rows[r])) || Covered(t.latest, KeyOf(t.rows[r]))
    {
      var k := KeyOf(t.rows[r]);
      assert NotedChat(tracked, s.latest, b, k.chat);
      if InFlight(s.open, k) && !Mentions(b, k) {
        var c :| c in s.open && Mentions(c, k);
        OthersRemain(s.open, i, c);
      }
    }
    forall chat | chat in t.latest && chat in loaded ensures Genuine(t, chat) {
      NotedGenuine(tracked, loaded, s, i, chat);
    }
    forall c, r | c in t.open && 0 <= r < |t.rows| && Mentions(c, KeyOf(t.rows[r]))
      && t.rows[r].chat in loaded && !Covered(t.latest, KeyOf(t.rows[r]))
      ensures FirstSent(c, KeyOf(t.rows[r])) == Some(t.rows[r].sent)
    {
      assert NotedChat(tracked, s.latest, b, t.rows[r].chat);
      assert !Covered(s.latest, KeyOf(s.rows[r]));
    }
  }

  lemma Remaining(open: seq<seq<Message>>, i: nat, c: seq<Message>)
    requires i < |open| && c in open[..i] + open[i + 1..] && OpenDisjoint(open)
    ensures c in open && Disjoint(c, open[i])
  {
    var rest := open[..i] + open[i + 1..];
    var j :| 0 <= j < |rest| && rest[j] == c;
    var at := if j < i then j else j + 1;
    assert open[at] == c;
    assert Disjoint(open[if at < i then at else i], open[if at < i then i else at]);
  }

  lemma OthersRemain(open: seq<seq<Message>>, i: nat, c: seq<Message>)
    requires i < |open| && c in open && c != open[i]
    ensures c in open[..i] + open[i + 1..]
  {
    var j :| 0 <= j < |open| && open[j] == c;
    var rest := open[..i] + open[i + 1..];
    assert rest[if j < i then j else j - 1] == c;
  }

  lemma NotedGenuine(tracked: set<int>, loaded: set<int>, s: State, i: nat, chat: int)
    requires Inv(tracked, loaded, s) && Enabled(s, Noted(i)) && chat in loaded
    requires chat in Step(tracked, s, Noted(i)).latest
    requires NotedChat(tracked, s.latest, s.open[i], chat)
    ensures Genuine(Step(tracked, s, Noted(i)), chat)
  {
    var t := Step(tracked, s, Noted(i));
    var b := s.open[i];
    assert b in s.open;
    var m := t.latest[chat];
    var k := KeyOf(m);
    if FromBatch(s.latest, b, m) {
      assert HasRow(s.rows, k);
      var r :| 0 <= r < |s.rows| && KeyOf(s.rows[r]) == k;
      assert LastBody(b, k) == Some(s.rows[r].body);
      if chat in s.latest && s.latest[chat].mid == k.mid {
        assert Genuine(s, chat);
        var q :| 0 <= q < |s.rows| && BackedBy(s, s.latest[chat], s.rows[q]);
        assert q == r;
      } else {
        assert !Covered(s.latest, k);
      }
      assert BackedBy(t, m, t.rows[r]);
    } else {
      assert Genuine(s, chat) && m == s.latest[chat];
      var r :| 0 <= r < |s.rows| && BackedBy(s, m, s.rows[r]);
      assert !Mentions(b, k);
      if InFlight(s.open, k) {
        var c :| c in s.open && Mentions(c, k);
        OthersRemain(s.open, i, c);
      }
      assert BackedBy(t, m, t.rows[r]);
    }
  }

  // ----- whole runs -----

  lemma {:induction false} RunKeeps(tracked: set<int>, loaded: set<int>, start: State, events: seq<Event>, end: State)
    requires Inv(tracked, loaded, start) && IsRun(tracked, start, events, end)
    ensures Inv(tracked, loaded, end)
    decreases |events|
  {
    if events != [] {
      match events[0] {
        case Committed(msgs) => CommitKeeps(tracked, loaded, start, msgs);
        case Noted(i) => NotedKeeps(tracked, loaded, start, i);
      }
      RunKeeps(tracked, loaded, Step(tracked, start, events[0]), events[1..], end);
    }
  }

  /** What TrackLatest leaves: nothing in flight and the loaded chats read from the table. */
  ghost predicate Loaded(tracked: set<int>, loaded: set<int>, s: State) {
    && loaded <= tracked && RowsOk(s.rows) && s.open == []
    && forall chat :: chat in loaded ==> Cached(s.latest, chat) == NewestRow(s.rows, chat)
  }

  lemma LoadedIsInv(tracked: set<int>, loaded: set<int>, s: State)
    requires Loaded(tracked, loaded, s)
    ensures Inv(tracked, loaded, s)
  {
    forall r | 0 <= r < |s.rows| && s.rows[r].chat in loaded ensures Covered(s.latest, KeyOf(s.rows[r])) {
      assert Cached(s.latest, s.rows[r].chat) == NewestRow(s.rows, s.rows[r].chat);
    }
    forall chat | chat in s.latest && chat in loaded ensures Genuine(s, chat) {
      assert Cached(s.latest, chat) == NewestRow(s.rows, chat);
      var r :| 0 <= r < |s.rows| && s.rows[r] == s.latest[chat];
      assert BackedBy(s, s.latest[chat], s.rows[r]);
    }
  }

  /**
   The cache equals the table: from a successful load on, in any interleaving of commits and notes by
   writers that share no message, whenever nothing committed is still un-noted the cached message of
   every loaded chat is, but for the surrogate id, the stored row with the highest message id.
   */
  lemma CacheEqualsTable(tracked: set<int>, loaded: set<int>, start: State, events: seq<Event>, end: State, chat: int)
    requires Loaded(tracked, loaded, start) && IsRun(tracked, start, events, end)
    requires end.open == [] && chat in loaded
    ensures Agrees(Cached(end.latest, chat), NewestRow(end.rows, chat))
  {
    LoadedIsInv(tracked, loaded, start);
    RunKeeps(tracked, loaded, start, events, end);
    QuietMeansCurrent(tracked, loaded, end, chat);
  }

  /** A message that leaves the cache's answer right: older, or the cached one with the body it is left with. */
  predicate Harmless(latest: Cache, msgs: seq<Message>, m: Message) {
    && m.chat in latest
    && (m.mid < latest[m.chat].mid
        || (m.mid == latest[m.chat].mid && LastBody(msgs, KeyOf(m)) == Some(latest[m.chat].body)))
  }

  lemma StaysNewest(rows: seq<Message>, msgs: seq<Message>, latest: Cache, chat: int)
    requires RowsOk(rows) && Agrees(Cached(latest, chat), NewestRow(rows, chat))
    requires forall m :: m in msgs ==> m.chat == chat && Harmless(latest, msgs, m)
    ensures Agrees(Cached(latest, chat), NewestRow(Apply(rows, msgs), chat))
  {
    var after := Apply(rows, msgs);
    if chat in latest {
      ApplyKeeps(rows, msgs);
      var old_ := NewestRow(rows, chat).value;
      var i :| 0 <= i < |rows| && rows[i] == old_;
      NewestExists(after, i);
      var top := NewestRow(after, chat).value;
      var j :| 0 <= j < |after| && after[j] == top;
      ApplyOnly(rows, msgs, j);
      assert forall k :: 0 <= k < |msgs| ==> msgs[k].mid <= old_.mid by {
        assert forall k :: 0 <= k < |msgs| ==> msgs[k] in msgs;
      }
      assert top.mid <= old_.mid;
      assert KeyOf(after[i]) == KeyOf(after[j]) && i == j;
      ApplyBodies(rows, msgs, j);
      MentionsMeans(msgs, KeyOf(top));
      if Mentions(msgs, KeyOf(top)) {
        var k :| 0 <= k < |msgs| && KeyOf(msgs[k]) == KeyOf(top);
        assert msgs[k] in msgs;
      }
    } else {
      EmptyOrSome(msgs);
    }
  }

  lemma NewestIsHarmless(rows: seq<Message>, msgs: seq<Message>, latest: Cache, m: Message)
    requires RowsOk(rows) && m in msgs
    requires Agrees(Cached(latest, m.chat), NewestRow(Apply(rows, msgs), m.chat))
    ensures Harmless(latest, msgs, m)
  {
    var after := Apply(rows, msgs);
    ApplyKeeps(rows, msgs);
    var k :| 0 <= k < |msgs| && msgs[k] == m;
    assert HasRow(after, KeyOf(msgs[k]));
    var i :| 0 <= i < |after| && KeyOf(after[i]) == KeyOf(m);
    NewestExists(after, i);
    var top := NewestRow(after, m.chat).value;
    var j :| 0 <= j < |after| && after[j] == top;
    if m.mid == top.mid {
      assert KeyOf(msgs[k]) == KeyOf(top);
      ApplyBodies(rows, msgs, j);
      MentionsMeans(msgs, KeyOf(top));
    }
  }

  /**
   Writing messages of a chat behind the cache's back leaves its answer right exactly when each of them
   is older than the cached one, or is the cached one and leaves it its body.
   */
  lemma UnnotedAgreesIff(rows: seq<Message>, msgs: seq<Message>, latest: Cache, chat: int)
    requires RowsOk(rows) && Agrees(Cached(latest, chat), NewestRow(rows, chat))
    requires forall m :: m in msgs ==> m.chat == chat
    ensures Agrees(Cached(latest, chat), NewestRow(Apply(rows, msgs), chat)) <==>
      forall m :: m in msgs ==> Harmless(latest, msgs, m)
  {
    hide RowsOk, Agrees, NewestRow, Apply, Harmless;
    if Agrees(Cached(latest, chat), NewestRow(Apply(rows, msgs), chat)) {
      forall m | m in msgs ensures Harmless(latest, msgs, m) { NewestIsHarmless(rows, msgs, latest, m); }
    }
    if forall m :: m in msgs ==> Harmless(latest, msgs, m) { StaysNewest(rows, msgs, latest, chat); }
  }

  /** A single writer commits and notes in one go. */
  lemma BatchKeepsCache(tracked: set<int>, loaded: set<int>, rows: seq<Message>, latest: Cache, msgs: seq<Message>)
    requires Inv(tracked, loaded, State(rows, latest, []))
    ensures Inv(tracked, loaded, State(Apply(rows, msgs), Note(tracked, latest, msgs), []))
  {
    var s := State(rows, latest, []);
    CommitKeeps(tracked, loaded, s, msgs);
    var t := Step(tracked, s, Committed(msgs));
    assert t.open == [msgs];
    NotedKeeps(tracked, loaded, t, 0);
    assert t.open[..0] + t.open[1..] == [];
  }

  /** Loading one more chat, before anything is in flight. */
  lemma LoadKeeps(
      tracked: set<int>, more: set<int>, loaded: set<int>, rows: seq<Message>, before: Cache, after: Cache,
      chat: int)
    requires Inv(tracked, loaded, State(rows, before, [])) && more == tracked + {chat}
    requires Cached(after, chat) == NewestRow(rows, chat)
    requires forall c :: c != chat ==> Cached(after, c) == Cached(before, c)
    ensures Inv(more, loaded + {chat}, State(rows, after, []))
  {
    var s, t := State(rows, before, []), State(rows, after, []);
    forall r | 0 <= r < |rows| && rows[r].chat in loaded + {chat} ensures Covered(after, KeyOf(rows[r])) {
      if rows[r].chat != chat {
        assert InFlight(s.open, KeyOf(rows[r])) || Covered(before, KeyOf(rows[r]));
        assert Cached(after, rows[r].chat) == Cached(before, rows[r].chat);
      } else {
        assert Cached(after, chat) == NewestRow(rows, chat);
      }
    }
    forall c | c in after && c in loaded + {chat} ensures Genuine(t, c) {
      if c != chat {
        assert Cached(after, c) == Cached(before, c);
        assert Genuine(s, c);
        var r :| 0 <= r < |rows| && BackedBy(s, before[c], rows[r]);
        assert BackedBy(t, after[c], rows[r]);
      } else {
        var r :| 0 <= r < |rows| && rows[r] == after[c];
        assert BackedBy(t, after[c], rows[r]);
      }
    }
  }
}
