/**
 The tables of the message store, one statement at a time: every SQL statement may succeed, be
 refused for its row, or hit an outage, and the environment's answer to each is a parameter.
 */
module Tables {
  import opened Base

  /** The columns an upsert rewrites; `rest` stands for sender, mention and media columns. */
  datatype Body = Body(thread: int, replyTo: int, fromBot: bool, edited: int, text: string, rest: string)

  /** Times are whole seconds; 0 means absent for `thread`, `replyTo` and `edited`. */
  datatype Message = Message(id: int, chat: int, mid: int, sent: int, body: Body)

  datatype Key = Key(chat: int, mid: int)

  datatype Pending = Pending(msg: Message, title: string, kind: string, received: int)

  /** `rows` is messages in rowid order, `fts` maps rowid to indexed text. */
  datatype Db = Db(rows: seq<Message>, fts: map<int, string>, pending: seq<Pending>, cursors: map<int, int>)

  datatype Fate = Accepted | Refused | Outage

  /** The statements of a transaction, numbered by the message they serve. */
  datatype Stmt =
    | Begin
    | Upsert(i: nat)
    | ClearIndex(i: nat)
    | Index(i: nat)
    | Buffer(i: nat)
    | ReadBuffer
    | Savepoint(i: nat)
    | RollbackTo(i: nat)
    | Release(i: nat)
    | DropBuffer
    | Sweep
    | Commit

  type Fates = Stmt -> Fate

  /** Done, rejected for its own sake (ErrBadMessage), or failed for any other reason. */
  datatype Status = Done | BadMessage | Failed

  /** Errors of the statements that go through classify. */
  function Classify(f: Fate): Status {
    match f
    case Accepted => Done
    case Refused => BadMessage
    case Outage => Failed
  }

  function KeyOf(m: Message): Key { Key(m.chat, m.mid) }

  // ----- rows -----

  function FindRow(rows: seq<Message>, k: Key): (r: int)
    ensures -1 <= r < |rows|
    ensures r >= 0 ==> KeyOf(rows[r]) == k
    ensures r < 0 ==> forall i :: 0 <= i < |rows| ==> KeyOf(rows[i]) != k
  {
    if rows == [] then -1
    else if KeyOf(rows[|rows| - 1]) == k then |rows| - 1
    else FindRow(rows[..|rows| - 1], k)
  }

  predicate HasRow(rows: seq<Message>, k: Key) {
    exists i :: 0 <= i < |rows| && KeyOf(rows[i]) == k
  }

  function RowOf(rows: seq<Message>, k: Key): Option<Message> {
    var i := FindRow(rows, k);
    if i < 0 then None else Some(rows[i])
  }

  /** Rowids count up from 1 without gaps (nothing deletes messages) and keys are unique. */
  predicate RowsOk(rows: seq<Message>) {
    && (forall i :: 0 <= i < |rows| ==> rows[i].id == i + 1)
    && (forall i, j :: 0 <= i < j < |rows| ==> KeyOf(rows[i]) != KeyOf(rows[j]))
  }

  /** INSERT ... ON CONFLICT DO UPDATE: a conflict rewrites the body and keeps id and sent. */
  function UpsertRow(rows: seq<Message>, m: Message): (r: seq<Message>)
    ensures |rows| <= |r| <= |rows| + 1
  {
    var i := FindRow(rows, KeyOf(m));
    if i < 0 then rows + [m.(id := |rows| + 1)] else rows[i := rows[i].(body := m.body)]
  }

  function UpsertId(rows: seq<Message>, m: Message): int {
    var i := FindRow(rows, KeyOf(m));
    if i < 0 then |rows| + 1 else rows[i].id
  }

  /** One row at two times: what identifies it is the same, the body may have been rewritten. */
  predicate SameRow(a: Message, b: Message) {
    a.id == b.id && a.chat == b.chat && a.mid == b.mid && a.sent == b.sent
  }

  /** Rows are only ever added at the end; id, key and sent never change. */
  predicate Extends(old_: seq<Message>, new_: seq<Message>) {
    |old_| <= |new_| && forall i :: 0 <= i < |old_| ==> SameRow(old_[i], new_[i])
  }

  lemma ExtendsTrans(a: seq<Message>, b: seq<Message>, c: seq<Message>)
    requires Extends(a, b) && Extends(b, c)
    ensures Extends(a, c)
  {
  }

  lemma RowStays(a: seq<Message>, b: seq<Message>, k: Key)
    requires Extends(a, b) && HasRow(a, k)
    ensures HasRow(b, k)
  {
    var i :| 0 <= i < |a| && KeyOf(a[i]) == k;
    assert KeyOf(b[i]) == k;
  }

  lemma UpsertRowKeeps(rows: seq<Message>, m: Message)
    requires RowsOk(rows)
    ensures RowsOk(UpsertRow(rows, m)) && Extends(rows, UpsertRow(rows, m))
    ensures HasRow(UpsertRow(rows, m), KeyOf(m))
  {
    var i := FindRow(rows, KeyOf(m));
    var after := UpsertRow(rows, m);
    var j := if i < 0 then |rows| else i;
    assert KeyOf(after[j]) == KeyOf(m);
  }

  // ----- the index -----

  /** Exactly one index row per message, carrying its current text, and no others. */
  predicate IndexOk(rows: seq<Message>, fts: map<int, string>) {
    && (forall i :: 0 <= i < |rows| ==> rows[i].id in fts && fts[rows[i].id] == rows[i].body.text)
    && (forall id :: id in fts ==> 1 <= id <= |rows|)
  }

  predicate PendingOk(pending: seq<Pending>) {
    forall i, j :: 0 <= i < j < |pending| ==> KeyOf(pending[i].msg) != KeyOf(pending[j].msg)
  }

  predicate DbOk(db: Db) {
    RowsOk(db.rows) && IndexOk(db.rows, db.fts) && PendingOk(db.pending)
  }

  /** upsertTx for message `i` of its transaction: three statements, stopping at the first to fail. */
  function UpsertTx(tx: Db, m: Message, fate: Fates, i: nat): (Db, Status) {
    var id := UpsertId(tx.rows, m);
    var written := tx.(rows := UpsertRow(tx.rows, m));
    var cleared := written.(fts := written.fts - {id});
    var indexed := cleared.(fts := cleared.fts[id := m.body.text]);
    if fate(Upsert(i)) != Accepted then (tx, Classify(fate(Upsert(i))))
    else if fate(ClearIndex(i)) != Accepted then (written, Classify(fate(ClearIndex(i))))
    else if fate(Index(i)) != Accepted then (cleared, Classify(fate(Index(i))))
    else (indexed, Done)
  }

  lemma UpsertTxKeeps(tx: Db, m: Message, fate: Fates, i: nat)
    requires DbOk(tx) && UpsertTx(tx, m, fate, i).1 == Done
    ensures DbOk(UpsertTx(tx, m, fate, i).0)
  {
    var after := UpsertTx(tx, m, fate, i).0;
    UpsertRowKeeps(tx.rows, m);
    var id := UpsertId(tx.rows, m);
    forall j | 0 <= j < |after.rows|
      ensures after.rows[j].id in after.fts && after.fts[after.rows[j].id] == after.rows[j].body.text
    {
      if after.rows[j].id != id { assert after.rows[j] == tx.rows[j]; }
    }
  }

  /** Why replay needs its savepoint: an upsert refused at its last statement leaves a row unindexed. */
  lemma RefusedUpsertBreaksIndex(tx: Db, m: Message, fate: Fates, i: nat)
    requires DbOk(tx) && fate(Upsert(i)) == Accepted && fate(ClearIndex(i)) == Accepted && fate(Index(i)) == Refused
    ensures UpsertTx(tx, m, fate, i).1 == BadMessage
    ensures !IndexOk(UpsertTx(tx, m, fate, i).0.rows, UpsertTx(tx, m, fate, i).0.fts)
  {
    var after := UpsertTx(tx, m, fate, i).0;
    var at := FindRow(tx.rows, KeyOf(m));
    var j := if at < 0 then |tx.rows| else at;
    assert after.rows[j].id !in after.fts;
  }

  // ----- a batch in one transaction -----

  /** The writes of UpsertBatch between begin and commit. */
  function BatchTx(tx: Db, msgs: seq<Message>, fate: Fates): (Db, Status) {
    if msgs == [] then (tx, Done)
    else
      var n := |msgs| - 1;
      var (before, status) := BatchTx(tx, msgs[..n], fate);
      if status != Done then (before, status) else UpsertTx(before, msgs[n], fate, n)
  }

  /** UpsertBatch: all of the messages and their index rows land, or none do. */
  function Batch(db: Db, msgs: seq<Message>, fate: Fates): (Db, Status) {
    if msgs == [] then (db, Done)
    else if fate(Begin) != Accepted then (db, Failed)
    else
      var (tx, status) := BatchTx(db, msgs, fate);
      if status != Done then (db, status)
      else if fate(Commit) != Accepted then (db, Failed)
      else (tx, Done)
  }

  /** What a committed batch makes of the rows. */
  function Apply(rows: seq<Message>, msgs: seq<Message>): seq<Message> {
    if msgs == [] then rows else UpsertRow(Apply(rows, msgs[..|msgs| - 1]), msgs[|msgs| - 1])
  }

  lemma {:induction false} BatchTxApplies(tx: Db, msgs: seq<Message>, fate: Fates)
    requires DbOk(tx)
    ensures BatchTx(tx, msgs, fate).1 == Done ==>
      var after := BatchTx(tx, msgs, fate).0;
      DbOk(after) && after == Db(Apply(tx.rows, msgs), after.fts, tx.pending, tx.cursors)
  {
    if msgs != [] {
      var n := |msgs| - 1;
      BatchTxApplies(tx, msgs[..n], fate);
      var (before, status) := BatchTx(tx, msgs[..n], fate);
      if status == Done && UpsertTx(before, msgs[n], fate, n).1 == Done {
        UpsertTxKeeps(before, msgs[n], fate, n);
      }
    }
  }

  /** The index agrees with the table after every batch, whichever statement fails. */
  lemma BatchKeepsTables(db: Db, msgs: seq<Message>, fate: Fates)
    requires DbOk(db)
    ensures var (after, status) := Batch(db, msgs, fate);
      && DbOk(after)
      && (status != Done ==> after == db)
      && (status == Done ==> after == Db(Apply(db.rows, msgs), after.fts, db.pending, db.cursors))
  {
    BatchTxApplies(db, msgs, fate);
  }

  /** An index is determined by the rows it agrees with. */
  lemma IndexDetermined(rows: seq<Message>, f: map<int, string>, g: map<int, string>)
    requires RowsOk(rows) && IndexOk(rows, f) && IndexOk(rows, g)
    ensures f == g
  {
    forall id ensures id in f <==> id in g {
      if 1 <= id <= |rows| { assert rows[id - 1].id == id; }
    }
    forall id | id in f ensures f[id] == g[id] {
      assert rows[id - 1].id == id;
    }
  }

  // ----- how a batch ends -----

  /** Each statement of message `i` is accepted. */
  predicate Takes(fate: Fates, i: nat) {
    fate(Upsert(i)) == Accepted && fate(ClearIndex(i)) == Accepted && fate(Index(i)) == Accepted
  }

  /** The first statement of message `i` that is not accepted is refused. */
  predicate Refuses(fate: Fates, i: nat) {
    || fate(Upsert(i)) == Refused
    || (fate(Upsert(i)) == Accepted && fate(ClearIndex(i)) == Refused)
    || (fate(Upsert(i)) == Accepted && fate(ClearIndex(i)) == Accepted && fate(Index(i)) == Refused)
  }

  /** The first `n` messages are taken. */
  predicate AllTaken(fate: Fates, n: nat) {
    forall i :: 0 <= i < n ==> Takes(fate, i)
  }

  /** Of the first `n` messages, one is refused after all before it were taken. */
  predicate OneRefused(fate: Fates, n: nat) {
    exists i :: 0 <= i < n && Refuses(fate, i) && AllTaken(fate, i)
  }

  lemma {:induction false} BatchTxOutcome(tx: Db, msgs: seq<Message>, fate: Fates)
    ensures BatchTx(tx, msgs, fate).1 == Done <==> AllTaken(fate, |msgs|)
    ensures BatchTx(tx, msgs, fate).1 == BadMessage <==> OneRefused(fate, |msgs|)
  {
    if msgs != [] {
      var n := |msgs| - 1;
      BatchTxOutcome(tx, msgs[..n], fate);
      var before := BatchTx(tx, msgs[..n], fate).0;
      assert UpsertTx(before, msgs[n], fate, n).1 == Done <==> Takes(fate, n);
      assert UpsertTx(before, msgs[n], fate, n).1 == BadMessage <==> Refuses(fate, n);
      assert Refuses(fate, n) ==> !Takes(fate, n);
      hide UpsertTx, Takes, Refuses;
      RefusedStops(fate, n);
      hide AllTaken, OneRefused;
    }
  }

  lemma RefusedStops(fate: Fates, n: nat)
    ensures OneRefused(fate, n) ==> !AllTaken(fate, n)
    ensures AllTaken(fate, n + 1) <==> AllTaken(fate, n) && Takes(fate, n)
    ensures OneRefused(fate, n + 1) <==> OneRefused(fate, n) || (AllTaken(fate, n) && Refuses(fate, n))
  {
    if OneRefused(fate, n + 1) && !OneRefused(fate, n) {
      var i :| 0 <= i < n + 1 && Refuses(fate, i) && AllTaken(fate, i);
      assert i == n;
    }
    if OneRefused(fate, n) {
      var i :| 0 <= i < n && Refuses(fate, i) && AllTaken(fate, i);
      assert !Takes(fate, i);
    }
  }

  /**
   A batch commits exactly when every statement is accepted, and is rejected for its own sake exactly when
   the first statement that is not accepted is some message's and is refused.
   */
  lemma BatchOutcome(db: Db, msgs: seq<Message>, fate: Fates)
    requires msgs != []
    ensures Batch(db, msgs, fate).1 == Done <==>
      fate(Begin) == Accepted && fate(Commit) == Accepted && AllTaken(fate, |msgs|)
    ensures Batch(db, msgs, fate).1 == BadMessage <==> fate(Begin) == Accepted && OneRefused(fate, |msgs|)
  {
    BatchTxOutcome(db, msgs, fate);
    RefusedStops(fate, |msgs|);
    hide BatchTx, AllTaken, OneRefused;
  }

  // ----- what a batch does to each row -----

  predicate Mentions(msgs: seq<Message>, k: Key) {
    exists i :: 0 <= i < |msgs| && KeyOf(msgs[i]) == k
  }

  /** The last body the batch carries for a key. */
  function LastBody(msgs: seq<Message>, k: Key): Option<Body> {
    if msgs == [] then None
    else if KeyOf(msgs[|msgs| - 1]) == k then Some(msgs[|msgs| - 1].body)
    else LastBody(msgs[..|msgs| - 1], k)
  }

  /** The first sent the batch carries for a key. */
  function FirstSent(msgs: seq<Message>, k: Key): Option<int> {
    if msgs == [] then None
    else
      var before := FirstSent(msgs[..|msgs| - 1], k);
      if before.Some? then before
      else if KeyOf(msgs[|msgs| - 1]) == k then Some(msgs[|msgs| - 1].sent)
      else None
  }

  lemma {:induction false} MentionsMeans(msgs: seq<Message>, k: Key)
    ensures Mentions(msgs, k) <==> LastBody(msgs, k).Some?
    ensures Mentions(msgs, k) <==> FirstSent(msgs, k).Some?
  {
    if msgs != [] {
      var n := |msgs| - 1;
      MentionsMeans(msgs[..n], k);
      assert Mentions(msgs, k) <==> Mentions(msgs[..n], k) || KeyOf(msgs[n]) == k by {
        if Mentions(msgs[..n], k) {
          var i :| 0 <= i < n && KeyOf(msgs[..n][i]) == k;
          assert KeyOf(msgs[i]) == k;
        }
        if Mentions(msgs, k) && KeyOf(msgs[n]) != k {
          var i :| 0 <= i <= n && KeyOf(msgs[i]) == k;
          assert KeyOf(msgs[..n][i]) == k;
        }
      }
    }
  }

  /** Rows only grow, identities are frozen, and every key the batch mentions is stored. */
  lemma {:induction false} ApplyKeeps(rows: seq<Message>, msgs: seq<Message>)
    requires RowsOk(rows)
    ensures RowsOk(Apply(rows, msgs)) && Extends(rows, Apply(rows, msgs))
    ensures forall i :: 0 <= i < |msgs| ==> HasRow(Apply(rows, msgs), KeyOf(msgs[i]))
  {
    if msgs != [] {
      var n := |msgs| - 1;
      var before, after := Apply(rows, msgs[..n]), Apply(rows, msgs);
      ApplyKeeps(rows, msgs[..n]);
      UpsertRowKeeps(before, msgs[n]);
      hide RowsOk, UpsertRow, Extends, HasRow;
      ExtendsTrans(rows, before, after);
      forall i | 0 <= i < |msgs| ensures HasRow(after, KeyOf(msgs[i])) {
        if i < n {
          assert msgs[..n][i] == msgs[i];
          RowStays(before, after, KeyOf(msgs[i]));
        }
      }
    }
  }

  /** A key the batch mentions ends up with its last body, any other keeps the one it had. */
  lemma {:induction false} ApplyBodies(rows: seq<Message>, msgs: seq<Message>, i: nat)
    requires RowsOk(rows) && i < |Apply(rows, msgs)|
    ensures var after := Apply(rows, msgs);
      && (LastBody(msgs, KeyOf(after[i])).Some? ==> LastBody(msgs, KeyOf(after[i])).value == after[i].body)
      && (LastBody(msgs, KeyOf(after[i])).None? ==> i < |rows| && after[i] == rows[i])
  {
    if msgs != [] {
      var n := |msgs| - 1;
      var before := Apply(rows, msgs[..n]);
      ApplyKeeps(rows, msgs[..n]);
      if i < |before| { ApplyBodies(rows, msgs[..n], i); }
    }
  }

  function RowBody(rows: seq<Message>, k: Key): Option<Body> {
    var i := FindRow(rows, k);
    if i < 0 then None else Some(rows[i].body)
  }

  /** A batch replaces the body of what it mentions by its last word and leaves every other. */
  lemma ApplyRowBody(rows: seq<Message>, msgs: seq<Message>, k: Key)
    requires RowsOk(rows)
    ensures RowBody(Apply(rows, msgs), k) ==
      if LastBody(msgs, k).Some? then LastBody(msgs, k) else RowBody(rows, k)
  {
    var after := Apply(rows, msgs);
    ApplyKeeps(rows, msgs);
    MentionsMeans(msgs, k);
    if Mentions(msgs, k) {
      var j :| 0 <= j < |msgs| && KeyOf(msgs[j]) == k;
      assert HasRow(after, KeyOf(msgs[j]));
    }
    hide RowsOk, Apply, LastBody;
    var i, at := FindRow(after, k), FindRow(rows, k);
    if i >= 0 { ApplyBodies(rows, msgs, i); }
    if at >= 0 { assert KeyOf(after[at]) == k; }
  }

  /** A key first stored by the batch gets the first sent the batch carries for it. */
  lemma {:induction false} ApplySents(rows: seq<Message>, msgs: seq<Message>, i: nat)
    requires RowsOk(rows) && |rows| <= i < |Apply(rows, msgs)|
    ensures FirstSent(msgs, KeyOf(Apply(rows, msgs)[i])) == Some(Apply(rows, msgs)[i].sent)
  {
    if msgs != [] {
      var n := |msgs| - 1;
      var before := Apply(rows, msgs[..n]);
      ApplyKeeps(rows, msgs[..n]);
      if i < |before| {
        ApplySents(rows, msgs[..n], i);
      } else {
        MentionsMeans(msgs[..n], KeyOf(msgs[n]));
      }
    }
  }

  /** Nothing is stored that was neither there nor in the batch. */
  lemma ApplyOnly(rows: seq<Message>, msgs: seq<Message>, i: nat)
    requires RowsOk(rows) && i < |Apply(rows, msgs)|
    ensures i < |rows| || Mentions(msgs, KeyOf(Apply(rows, msgs)[i]))
  {
    ApplyBodies(rows, msgs, i);
    MentionsMeans(msgs, KeyOf(Apply(rows, msgs)[i]));
  }

  // ----- redelivery -----

  lemma {:induction false} ApplyConcat(rows: seq<Message>, p: seq<Message>, q: seq<Message>)
    ensures Apply(rows, p + q) == Apply(Apply(rows, p), q)
  {
    if q == [] {
      assert p + q == p;
    } else {
      var n := |q| - 1;
      assert (p + q)[..|p + q| - 1] == p + q[..n] && (p + q)[|p + q| - 1] == q[n];
      ApplyConcat(rows, p, q[..n]);
    }
  }

  lemma {:induction false} ApplyKnown(rows: seq<Message>, msgs: seq<Message>)
    requires RowsOk(rows) && forall i :: 0 <= i < |msgs| ==> HasRow(rows, KeyOf(msgs[i]))
    ensures |Apply(rows, msgs)| == |rows|
  {
    if msgs != [] {
      var n := |msgs| - 1;
      forall i | 0 <= i < n ensures HasRow(rows, KeyOf(msgs[..n][i])) { assert msgs[..n][i] == msgs[i]; }
      ApplyKnown(rows, msgs[..n]);
      ApplyKeeps(rows, msgs[..n]);
      var before := Apply(rows, msgs[..n]);
      assert HasRow(rows, KeyOf(msgs[n]));
      var j :| 0 <= j < |rows| && KeyOf(rows[j]) == KeyOf(msgs[n]);
      assert KeyOf(before[j]) == KeyOf(msgs[n]);
    }
  }

  /** Applying a batch again changes nothing. */
  lemma ApplyTwice(rows: seq<Message>, msgs: seq<Message>)
    requires RowsOk(rows)
    ensures Apply(Apply(rows, msgs), msgs) == Apply(rows, msgs)
  {
    var once := Apply(rows, msgs);
    ApplyKeeps(rows, msgs);
    ApplyKnown(once, msgs);
    ApplyKeeps(once, msgs);
    forall i | 0 <= i < |once| ensures Apply(once, msgs)[i] == once[i] {
      ApplyBodies(once, msgs, i);
      ApplyBodies(rows, msgs, i);
    }
  }

  /**
   Redelivery is absorbed: committing a batch and then the same batch with a longer tail leaves the
   table and its index as if the longer batch had been committed once.
   */
  lemma RedeliveryIsAbsorbed(db: Db, p: seq<Message>, q: seq<Message>, f: Fates, g: Fates, h: Fates)
    requires DbOk(db)
    requires Batch(db, p, f).1 == Done && Batch(Batch(db, p, f).0, p + q, g).1 == Done
    requires Batch(db, p + q, h).1 == Done
    ensures Batch(Batch(db, p, f).0, p + q, g).0 == Batch(db, p + q, h).0
  {
    var first := Batch(db, p, f).0;
    BatchKeepsTables(db, p, f);
    BatchKeepsTables(first, p + q, g);
    BatchKeepsTables(db, p + q, h);
    ApplyConcat(db.rows, p, q);
    ApplyConcat(first.rows, p, q);
    ApplyTwice(db.rows, p);
    var twice, once := Batch(first, p + q, g).0, Batch(db, p + q, h).0;
    IndexDetermined(once.rows, twice.fts, once.fts);
  }
}
