/** The store object: the database, the set of tracked chats and the newest message of each. */
module Store {
  import opened Base
  import opened Tables
  import opened Queries
  import Buffer
  import Latest
  import Triage

  lemma {:induction false} BatchTxStops(tx: Db, msgs: seq<Message>, fate: Fates, i: nat)
    requires i <= |msgs| && BatchTx(tx, msgs[..i], fate).1 != Done
    ensures BatchTx(tx, msgs, fate) == BatchTx(tx, msgs[..i], fate)
  {
    if i == |msgs| {
      assert msgs[..i] == msgs;
    } else {
      var n := |msgs| - 1;
      assert msgs[..n][..i] == msgs[..i];
      BatchTxStops(tx, msgs[..n], fate, i);
    }
  }

  lemma {:induction false} BufferTxStops(tx: Db, ps: seq<Pending>, fate: Fates, i: nat)
    requires i <= |ps| && Buffer.BufferTx(tx, ps[..i], fate).1 != Done
    ensures Buffer.BufferTx(tx, ps, fate) == Buffer.BufferTx(tx, ps[..i], fate)
  {
    if i == |ps| {
      assert ps[..i] == ps;
    } else {
      var n := |ps| - 1;
      assert ps[..n][..i] == ps[..i];
      BufferTxStops(tx, ps[..n], fate, i);
    }
  }

  lemma {:induction false} ReplayStops(start: Buffer.Replay, msgs: seq<Message>, fate: Fates, i: nat)
    requires i <= |msgs| && Buffer.ReplayRows(start, msgs[..i], fate).status != Done
    ensures Buffer.ReplayRows(start, msgs, fate).status != Done
  {
    if i == |msgs| {
      assert msgs[..i] == msgs;
    } else {
      var n := |msgs| - 1;
      assert msgs[..n][..i] == msgs[..i];
      ReplayStops(start, msgs[..n], fate, i);
    }
  }

  /** upsertTx: the upsert, then the index row cleared and written again. */
  method WriteMessage(start: Db, m: Message, fate: Fates, i: nat) returns (tx: Db, status: Status)
    ensures (tx, status) == UpsertTx(start, m, fate, i)
  {
    tx := start;
    status := Classify(fate(Upsert(i)));
    if status != Done { return; }
    var id := UpsertId(tx.rows, m);
    tx := tx.(rows := UpsertRow(tx.rows, m));
    status := Classify(fate(ClearIndex(i)));
    if status != Done { return; }
    tx := tx.(fts := tx.fts - {id});
    status := Classify(fate(Index(i)));
    if status != Done { return; }
    tx := tx.(fts := tx.fts[id := m.body.text]);
  }

  /** replayOne */
  method ReplayMessage(start: Db, m: Message, fate: Fates, i: nat) returns (tx: Db, status: Status)
    ensures (tx, status) == Buffer.ReplayOne(start, m, fate, i)
  {
    if fate(Savepoint(i)) != Accepted { return start, Failed; }
    var savepoint := start;
    tx, status := WriteMessage(start, m, fate, i);
    if status != Done {
      if fate(RollbackTo(i)) != Accepted { return tx, Failed; }
      tx := savepoint;
    }
    if fate(Release(i)) != Accepted { status := Failed; }
  }

  /** The loop of replayChat: a refused message is dropped, any other failure ends it. */
  method ReplayMessages(start: Db, msgs: seq<Message>, bad: seq<int>, fate: Fates)
    returns (tx: Db, moved: seq<Message>, dropped: seq<int>, status: Status)
    ensures var r := Buffer.ReplayRows(Buffer.Replay(start, [], bad, Done), msgs, fate);
      && (status == Done <==> r.status == Done)
      && (status == Done ==> r == Buffer.Replay(tx, moved, dropped, Done))
  {
    tx, moved, dropped := start, [], bad;
    ghost var r := Buffer.Replay(start, [], bad, Done);
    for i := 0 to |msgs|
      invariant Buffer.ReplayRows(r, msgs[..i], fate) == Buffer.Replay(tx, moved, dropped, Done)
    {
      assert msgs[..i + 1][..i] == msgs[..i];
      tx, status := ReplayMessage(tx, msgs[i], fate, i);
      match status
      case Done => moved := moved + [msgs[i]];
      case BadMessage => dropped := dropped + [msgs[i].mid];
      case Failed =>
        ReplayStops(r, msgs, fate, i + 1);
        return;
    }
    assert msgs[..|msgs|] == msgs;
    status := Done;
  }

  lemma ReplayExtends(db: Db, chat: int, fate: Fates)
    requires DbOk(db)
    ensures Extends(db.rows, Buffer.ReplayChat(db, chat, fate).tx.rows)
  {
    Buffer.ReplayIsConserving(db, chat, fate);
    var r := Buffer.ReplayChat(db, chat, fate);
    hide Buffer.ReplayChat;
    if r.status == Done { ApplyKeeps(db.rows, r.moved); }
  }

  lemma NoneLoaded(tracked: set<int>, rows: seq<Message>, latest: Latest.Cache)
    requires RowsOk(rows)
    ensures Latest.Inv(tracked, {}, Latest.State(rows, latest, []))
  {
  }

  /**
   Replaying into a chat the cache answers for keeps the answer right exactly when every moved message
   is older than the cached one, or is the cached one and leaves it its body.
   */
  lemma ReplayAgreesIff(db: Db, latest: Latest.Cache, chat: int, fate: Fates)
    requires DbOk(db) && Latest.Agrees(Latest.Cached(latest, chat), Latest.NewestRow(db.rows, chat))
    ensures var r := Buffer.ReplayChat(db, chat, fate);
      Latest.Agrees(Latest.Cached(latest, chat), Latest.NewestRow(r.tx.rows, chat)) <==>
      forall m :: m in r.moved ==> Latest.Harmless(latest, r.moved, m)
  {
    var r := Buffer.ReplayChat(db, chat, fate);
    Buffer.ReplayIsConserving(db, chat, fate);
    WhereMeans(db.pending, (p: Pending) => p.msg.chat == chat);
    assert r.tx.rows == Apply(db.rows, r.moved) by { assert r.status != Done ==> r.moved == []; }
    hide Buffer.ReplayChat, Latest.Harmless, Latest.Agrees;
    forall m | m in r.moved ensures m.chat == chat { assert r.status == Done; }
    Latest.UnnotedAgreesIff(db.rows, r.moved, latest, chat);
  }

  class Store {
    var db: Db
    var tracked: set<int>
    var latest: Latest.Cache
    /** The tracked chats whose newest row could be loaded. */
    ghost var loaded: set<int>

    ghost predicate Valid()
      reads this
    {
      && DbOk(db)
      && Latest.Inv(tracked, loaded, Latest.State(db.rows, latest, []))
      && Latest.Stored(db.rows, latest)
    }

    constructor ()
      ensures Valid() && db == Db([], map[], [], map[]) && tracked == {} && latest == map[] && loaded == {}
    {
      db := Db([], map[], [], map[]);
      tracked, latest, loaded := {}, map[], {};
    }

    /**
     All of the messages and their index rows land and reach the cache, or nothing changes; either way
     the index still agrees with the table and the cache with the newest rows.
     */
    method UpsertBatch(msgs: seq<Message>, fate: Fates) returns (status: Status)
      requires Valid()
      modifies this`db, this`latest
      ensures Valid()
      ensures (db, status) == Batch(old(db), msgs, fate)
      ensures latest == if status == Done then Latest.Note(tracked, old(latest), msgs) else old(latest)
    {
      if msgs == [] { return Done; }
      if fate(Begin) != Accepted { return Failed; }
      var tx := db;
      for i := 0 to |msgs|
        invariant BatchTx(db, msgs[..i], fate) == (tx, Done)
        invariant db == old(db) && latest == old(latest)
      {
        assert msgs[..i + 1][..i] == msgs[..i];
        tx, status := WriteMessage(tx, msgs[i], fate, i);
        if status != Done {
          BatchTxStops(db, msgs, fate, i + 1);
          return;
        }
      }
      assert msgs[..|msgs|] == msgs;
      if fate(Commit) != Accepted { return Failed; }
      BatchKeepsTables(db, msgs, fate);
      Latest.BatchKeepsCache(tracked, loaded, db.rows, latest, msgs);
      Latest.BatchKeepsStored(tracked, db.rows, latest, msgs);
      db := tx;
      NoteLatest(msgs);
      status := Done;
    }

    method NoteLatest(msgs: seq<Message>)
      modifies this`latest
      ensures latest == Latest.Note(tracked, old(latest), msgs)
    {
      for i := 0 to |msgs|
        invariant latest == Latest.Note(tracked, old(latest), msgs[..i])
      {
        var m := msgs[i];
        assert msgs[..i + 1][..i] == msgs[..i];
        if m.chat !in tracked { continue; }
        if m.chat in latest && m.mid < latest[m.chat].mid { continue; }
        if m.chat in latest && m.mid == latest[m.chat].mid {
          m := m.(sent := latest[m.chat].sent);
        }
        latest := latest[m.chat := m];
      }
      assert msgs[..|msgs|] == msgs;
    }

    method UpsertPendingBatch(ps: seq<Pending>, fate: Fates) returns (status: Status)
      requires Valid()
      modifies this`db
      ensures Valid()
      ensures (db, status) == Buffer.PendingBatch(old(db), ps, fate)
    {
      if ps == [] { return Done; }
      if fate(Begin) != Accepted { return Failed; }
      var tx := db;
      for i := 0 to |ps|
        invariant Buffer.BufferTx(db, ps[..i], fate) == (tx, Done)
        invariant db == old(db)
      {
        assert ps[..i + 1][..i] == ps[..i];
        status := Classify(fate(Stmt.Buffer(i)));
        if status != Done {
          BufferTxStops(db, ps, fate, i + 1);
          return;
        }
        tx := tx.(pending := Buffer.UpsertPending(tx.pending, ps[i]));
      }
      assert ps[..|ps|] == ps;
      if fate(Commit) != Accepted { return Failed; }
      Buffer.PendingBatchKeepsTables(db, ps, fate);
      db := tx;
      status := Done;
    }

    /** What it moves is not noted in the cache, which stays right only while no chat is loaded. */
    method ReplayChat(chat: int, fate: Fates) returns (moved: seq<Message>, dropped: seq<int>, status: Status)
      requires DbOk(db)
      modifies this`db
      ensures DbOk(db) && (old(Valid()) && loaded == {} ==> Valid())
      ensures Buffer.Replay(db, moved, dropped, status) == Buffer.ReplayChat(old(db), chat, fate)
      ensures status != Done ==> db == old(db)
    {
      Buffer.ReplayIsConserving(db, chat, fate);
      NoneLoaded(tracked, Buffer.ReplayChat(db, chat, fate).tx.rows, latest);
      ReplayExtends(db, chat, fate);
      if Latest.Stored(db.rows, latest) {
        Latest.StoredStays(db.rows, Buffer.ReplayChat(db, chat, fate).tx.rows, latest);
      }
      hide Latest.Inv, Latest.Stored, Extends, Apply;
      hide Buffer.ReplayRows, Buffer.InOrder, Buffer.Good, Buffer.Bad, Buffer.OfChat, Buffer.Mids;
      if fate(Begin) != Accepted || fate(ReadBuffer) != Accepted { return [], [], Failed; }
      var buffered := Buffer.InOrder(db.pending, chat);
      if buffered == [] { return [], [], Done; }
      var tx: Db;
      tx, moved, dropped, status := ReplayMessages(db, Buffer.Good(buffered), Buffer.Bad(buffered), fate);
      if status != Done || fate(DropBuffer) != Accepted || fate(Commit) != Accepted { return [], [], Failed; }
      db := tx.(pending := Buffer.NotOfChat(tx.pending, chat));
    }

    /** Chat by chat; the first failure ends it and takes the report of what was committed before with it. */
    method ReplayPending(chats: seq<int>, replay: nat -> Fates) returns (report: seq<Buffer.Replayed>, status: Status)
      requires DbOk(db)
      modifies this`db
      ensures DbOk(db) && (old(Valid()) && loaded == {} ==> Valid())
      ensures var d := Buffer.ReplayPending(old(db), chats, replay);
        db == d.tx && report == d.report && status == d.status
    {
      hide Buffer.ReplayChat, DbOk, Latest.Inv, Latest.Stored;
      report := [];
      ghost var moved: seq<Message> := [];
      for i := 0 to |chats|
        invariant DbOk(db) && (old(Valid()) && loaded == {} ==> Valid())
        invariant Buffer.ReplayLoop(old(db), chats[..i], replay) == Buffer.Drain(db, moved, report, Done)
      {
        assert chats[..i + 1][..i] == chats[..i];
        var now, dropped;
        now, dropped, status := ReplayChat(chats[i], replay(i));
        if status != Done {
          Buffer.LoopStops(old(db), chats, replay, i + 1);
          return [], status;
        }
        moved := moved + now;
        if now != [] || dropped != [] {
          report := report + [Buffer.Replayed(chats[i], |now|, dropped)];
        }
      }
      assert chats[..|chats|] == chats;
      status := Done;
    }

    /** Drops what waited longer than the ttl, and reports how many rows went. */
    method SweepPending(now: int, ttl: int, fate: Fates) returns (n: nat, status: Status)
      requires Valid()
      modifies this`db
      ensures Valid()
      ensures (db, status) == Buffer.Swept(old(db), now, ttl, fate)
      ensures n == |old(db).pending| - |db.pending|
    {
      if fate(Stmt.Sweep) != Accepted { return 0, Failed; }
      var since := now - Buffer.TtlOr(ttl);
      WhereMeans(db.pending, (p: Pending) => p.received >= since);
      Buffer.WherePending(db.pending, (p: Pending) => p.received >= since);
      var kept := Buffer.Fresh(db.pending, since);
      n := |db.pending| - |kept|;
      db := db.(pending := kept);
      status := Done;
    }

    /** The chat is tracked even when its newest row does not load. */
    method TrackLatest(chat: int, loads: bool) returns (status: Status)
      requires Valid()
      modifies this`tracked, this`latest, this`loaded
      ensures Valid()
      ensures tracked == old(tracked) + {chat} && status == (if loads then Done else Failed)
      ensures loads ==> Latest.Cached(latest, chat) == Latest.NewestRow(db.rows, chat)
      ensures loads ==> loaded == old(loaded) + {chat}
      ensures forall c :: c != chat ==> Latest.Cached(latest, c) == Latest.Cached(old(latest), c)
      ensures !loads ==> latest == old(latest) && loaded == old(loaded)
    {
      tracked := tracked + {chat};
      if !loads { return Failed; }
      var newest := Latest.NewestRow(db.rows, chat);
      if newest.Some? {
        latest := latest[chat := newest.value];
      }
      loaded := loaded + {chat};
      Latest.LoadKeeps(old(tracked), tracked, old(loaded), db.rows, old(latest), latest, chat);
      status := Done;
    }

    /** Whenever no batch is in flight this is the stored row with the highest message id, but for its id. */
    method GetLatest(chat: int) returns (m: Option<Message>)
      requires Valid()
      ensures m == Latest.Cached(latest, chat)
      ensures chat in loaded ==> Latest.Agrees(m, Latest.NewestRow(db.rows, chat))
    {
      if chat in loaded {
        Latest.QuietMeansCurrent(tracked, loaded, Latest.State(db.rows, latest, []), chat);
      }
      m := if chat in latest then Some(latest[chat]) else None;
    }

    /** Never moves backwards, and reports where the cursor ended up. */
    method SetCursor(chat: int, mid: int) returns (at: int)
      requires Valid()
      modifies this`db
      ensures Valid()
      ensures db == old(db).(cursors := Triage.Marked(old(db).cursors, chat, mid))
      ensures at == Triage.CursorOf(db.cursors, chat) >= mid
    {
      at := mid;
      if chat in db.cursors && db.cursors[chat] > mid { at := db.cursors[chat]; }
      db := db.(cursors := db.cursors[chat := at]);
    }
  }
}
