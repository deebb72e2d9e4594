/** The triage cursor of each chat and the messages above it. */
module Triage {
  import opened Base
  import opened Tables
  import opened Queries

  type Cursors = map<int, int>

  /** SetCursor: never backwards. */
  function Marked(cursors: Cursors, chat: int, mid: int): Cursors {
    cursors[chat := if chat in cursors then Max(cursors[chat], mid) else mid]
  }

  function CursorOf(cursors: Cursors, chat: int): int {
    if chat in cursors then cursors[chat] else 0
  }

  /** unreadJoin: ours are never unread. */
  predicate Unread(cursors: Cursors, chats: seq<int>, m: Message) {
    !m.body.fromBot && m.mid > CursorOf(cursors, m.chat) && m.chat in chats
  }

  /** ListNew: oldest first; a non-positive limit means none. */
  function ListNew(rows: seq<Message>, cursors: Cursors, chats: seq<int>, limit: int): seq<Message> {
    if chats == [] then []
    else if limit <= 0 then Select(rows, m => Unread(cursors, chats, m))
    else Oldest(rows, m => Unread(cursors, chats, m), limit)
  }

  function CountOf(rows: seq<Message>, chat: int, keep: Message -> bool): nat {
    if rows == [] then 0
    else CountOf(rows[1..], chat, keep) + (if keep(rows[0]) && rows[0].chat == chat then 1 else 0)
  }

  /** UnreadCounts: rows counted per chat, chats without any absent. */
  function UnreadCounts(rows: seq<Message>, cursors: Cursors, chats: seq<int>): map<int, nat> {
    map c | c in chats && CountOf(rows, c, m => Unread(cursors, chats, m)) > 0 ::
      CountOf(rows, c, m => Unread(cursors, chats, m))
  }

  lemma {:induction false} CountSplits(a: seq<Message>, b: seq<Message>, chat: int, keep: Message -> bool)
    ensures CountOf(a + b, chat, keep) == CountOf(a, chat, keep) + CountOf(b, chat, keep)
  {
    if a == [] {
      assert a + b == b;
    } else {
      CountSplits(a[1..], b, chat, keep);
      assert (a + b)[0] == a[0] && (a + b)[1..] == a[1..] + b;
    }
  }

  lemma {:induction false} CountIsWhere(rows: seq<Message>, chat: int, keep: Message -> bool, both: Message -> bool)
    requires forall m :: both(m) <==> keep(m) && m.chat == chat
    ensures CountOf(rows, chat, keep) == |Where(rows, both)|
  {
    if rows != [] {
      var n := |rows| - 1;
      CountIsWhere(rows[..n], chat, keep, both);
      assert rows == rows[..n] + [rows[n]];
      CountSplits(rows[..n], [rows[n]], chat, keep);
      assert CountOf([rows[n]], chat, keep) == CountOf([], chat, keep) + (if both(rows[n]) then 1 else 0);
    }
  }

  /** The count shown for a chat is the length of its unlimited list, asked for alone or with others. */
  lemma CountsMatchLists(rows: seq<Message>, cursors: Cursors, chats: seq<int>, chat: int)
    requires RowsOk(rows) && chat in chats
    ensures |ListNew(rows, cursors, [chat], 0)| ==
      if chat in UnreadCounts(rows, cursors, chats) then UnreadCounts(rows, cursors, chats)[chat] else 0
  {
    var keep := (m: Message) => Unread(cursors, chats, m);
    var both := (m: Message) => Unread(cursors, [chat], m);
    CountIsWhere(rows, chat, keep, both);
    SortKeeps(Where(rows, both), PosOf);
  }

  /**
   A limited list is the oldest part of the unlimited one, as much of it as the limit lets through; that is
   what others sent above the cursor.
   */
  lemma LimitKeepsTheOldest(rows: seq<Message>, cursors: Cursors, chats: seq<int>, limit: int)
    requires RowsOk(rows)
    ensures ListNew(rows, cursors, chats, limit) <= ListNew(rows, cursors, chats, 0)
    ensures var all := |ListNew(rows, cursors, chats, 0)|;
      |ListNew(rows, cursors, chats, limit)| == if 0 < limit < all then limit else all
    ensures Chronological(ListNew(rows, cursors, chats, limit))
    ensures forall m :: m in ListNew(rows, cursors, chats, 0) <==>
      && m in rows && m.chat in chats && !m.body.fromBot
      && m.mid > (if m.chat in cursors then cursors[m.chat] else 0)
  {
    SelectMeans(rows, m => Unread(cursors, chats, m));
  }

  // ----- runs -----

  /** A chat is marked handled up to a message, or some batch (new messages, edits, redeliveries) commits. */
  datatype Event = Mark(chat: int, mid: int) | Write(msgs: seq<Message>)

  datatype State = State(rows: seq<Message>, cursors: Cursors)

  function Step(s: State, e: Event): State {
    match e
    case Mark(chat, mid) => s.(cursors := Marked(s.cursors, chat, mid))
    case Write(msgs) => s.(rows := Apply(s.rows, msgs))
  }

  function Run(s: State, events: seq<Event>): State {
    if events == [] then s else Step(Run(s, events[..|events| - 1]), events[|events| - 1])
  }

  predicate Marks(e: Event, chat: int) {
    e.Mark? && e.chat == chat
  }

  /** The cursor is the greatest mark the chat was ever given, and it was given. */
  lemma {:induction false} CursorIsGreatestMark(s: State, events: seq<Event>, chat: int)
    requires chat !in s.cursors
    ensures var after := Run(s, events).cursors;
      && (chat in after <==> exists i :: 0 <= i < |events| && Marks(events[i], chat))
      && (chat in after ==> exists i :: 0 <= i < |events| && Marks(events[i], chat) && events[i].mid == after[chat])
      && (forall i :: 0 <= i < |events| && Marks(events[i], chat) ==> chat in after && events[i].mid <= after[chat])
  {
    if events != [] {
      var n := |events| - 1;
      CursorIsGreatestMark(s, events[..n], chat);
      var before, after := Run(s, events[..n]).cursors, Run(s, events).cursors;
      if chat in before {
        var i :| 0 <= i < n && Marks(events[..n][i], chat) && events[..n][i].mid == before[chat];
        assert events[i].mid == before[chat];
      }
      forall i | 0 <= i < |events| && Marks(events[i], chat) ensures chat in after && events[i].mid <= after[chat] {
        if i < n { assert events[..n][i] == events[i]; }
      }
      assert chat in after ==> chat in before || Marks(events[n], chat);
    }
  }

  lemma {:induction false} CursorNeverFalls(s: State, events: seq<Event>, chat: int)
    requires chat in s.cursors
    ensures chat in Run(s, events).cursors && s.cursors[chat] <= Run(s, events).cursors[chat]
  {
    if events != [] { CursorNeverFalls(s, events[..|events| - 1], chat); }
  }

  lemma {:induction false} RunKeepsRows(s: State, events: seq<Event>)
    requires RowsOk(s.rows)
    ensures RowsOk(Run(s, events).rows)
  {
    if events != [] {
      RunKeepsRows(s, events[..|events| - 1]);
      match events[|events| - 1]
      case Mark(_, _) =>
      case Write(msgs) => ApplyKeeps(Run(s, events[..|events| - 1]).rows, msgs);
    }
  }

  /**
   Triage never regresses: once a chat is marked up to a message, nothing at or below it is ever listed
   again, whatever marks, messages, edits and redeliveries follow.
   */
  lemma HandledStaysHandled(s: State, chat: int, mid: int, later: seq<Event>, chats: seq<int>, limit: int)
    requires RowsOk(s.rows)
    ensures var after := Run(Step(s, Mark(chat, mid)), later);
      forall m :: m in ListNew(after.rows, after.cursors, chats, limit) && m.chat == chat ==> m.mid > mid
  {
    var marked := Step(s, Mark(chat, mid));
    CursorNeverFalls(marked, later, chat);
    RunKeepsRows(marked, later);
    var after := Run(marked, later);
    hide Run;
    ListIsUnread(after.rows, after.cursors, chats, limit);
  }

  /** Whatever the limit, everything listed is unread. */
  lemma ListIsUnread(rows: seq<Message>, cursors: Cursors, chats: seq<int>, limit: int)
    requires RowsOk(rows)
    ensures forall m :: m in ListNew(rows, cursors, chats, limit) ==> Unread(cursors, chats, m)
  {
    LimitKeepsTheOldest(rows, cursors, chats, limit);
    hide ListNew, Unread;
    var some, all := ListNew(rows, cursors, chats, limit), ListNew(rows, cursors, chats, 0);
    forall m | m in some ensures Unread(cursors, chats, m) {
      var i :| 0 <= i < |some| && some[i] == m;
      assert all[i] == m;
    }
  }
}
