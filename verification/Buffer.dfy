/** The pending buffer: messages from chats outside the allowlist, and their replay into messages. */
module Buffer {
  import opened Base
  import opened Tables
  import opened Queries

  const DEFAULT_PENDING_TTL: int := 14 * 24 * 3600

  // ----- buffering -----

  function FindPending(pending: seq<Pending>, k: Key): (r: int)
    ensures -1 <= r < |pending|
    ensures r >= 0 ==> KeyOf(pending[r].msg) == k
    ensures r < 0 ==> forall i :: 0 <= i < |pending| ==> KeyOf(pending[i].msg) != k
  {
    if pending == [] then -1
    else if KeyOf(pending[|pending| - 1].msg) == k then |pending| - 1
    else FindPending(pending[..|pending| - 1], k)
  }

  predicate HasPending(pending: seq<Pending>, k: Key) {
    exists i :: 0 <= i < |pending| && KeyOf(pending[i].msg) == k
  }

  /** A conflict rewrites the message body and keeps sent, received, title and type. */
  function UpsertPending(pending: seq<Pending>, p: Pending): (r: seq<Pending>)
    ensures |pending| <= |r| <= |pending| + 1
  {
    var i := FindPending(pending, KeyOf(p.msg));
    if i < 0 then pending + [p.(msg := p.msg.(id := 0))]
    else pending[i := pending[i].(msg := pending[i].msg.(body := p.msg.body))]
  }

  function BufferTx(tx: Db, ps: seq<Pending>, fate: Fates): (Db, Status) {
    if ps == [] then (tx, Done)
    else
      var n := |ps| - 1;
      var (before, status) := BufferTx(tx, ps[..n], fate);
      if status != Done then (before, status)
      else if fate(Stmt.Buffer(n)) != Accepted then (before, Classify(fate(Stmt.Buffer(n))))
      else (before.(pending := UpsertPending(before.pending, ps[n])), Done)
  }

  /** UpsertPendingBatch: all of them are buffered or none is. */
  function PendingBatch(db: Db, ps: seq<Pending>, fate: Fates): (Db, Status) {
    if ps == [] then (db, Done)
    else if fate(Begin) != Accepted then (db, Failed)
    else
      var (tx, status) := BufferTx(db, ps, fate);
      if status != Done then (db, status)
      else if fate(Commit) != Accepted then (db, Failed)
      else (tx, Done)
  }

  function Hold(pending: seq<Pending>, ps: seq<Pending>): seq<Pending> {
    if ps == [] then pending else UpsertPending(Hold(pending, ps[..|ps| - 1]), ps[|ps| - 1])
  }

  /** What a buffered row keeps for good. */
  predicate SamePending(a: Pending, b: Pending) {
    && SameRow(a.msg, b.msg)
    && a.received == b.received && a.title == b.title && a.kind == b.kind
  }

  predicate PendingExtends(a: seq<Pending>, b: seq<Pending>) {
    |a| <= |b| && forall i :: 0 <= i < |a| ==> SamePending(a[i], b[i])
  }

  lemma UpsertPendingKeeps(pending: seq<Pending>, p: Pending)
    requires PendingOk(pending)
    ensures PendingOk(UpsertPending(pending, p)) && PendingExtends(pending, UpsertPending(pending, p))
    ensures HasPending(UpsertPending(pending, p), KeyOf(p.msg))
  {
    var i := FindPending(pending, KeyOf(p.msg));
    var j := if i < 0 then |pending| else i;
    assert KeyOf(UpsertPending(pending, p)[j].msg) == KeyOf(p.msg);
  }

  lemma {:induction false} HoldKeeps(pending: seq<Pending>, ps: seq<Pending>)
    requires PendingOk(pending)
    ensures PendingOk(Hold(pending, ps)) && PendingExtends(pending, Hold(pending, ps))
  {
    if ps != [] {
      HoldKeeps(pending, ps[..|ps| - 1]);
      UpsertPendingKeeps(Hold(pending, ps[..|ps| - 1]), ps[|ps| - 1]);
    }
  }

  /** Every key of the batch is buffered. */
  lemma {:induction false} HoldStores(pending: seq<Pending>, ps: seq<Pending>, i: nat)
    requires PendingOk(pending) && i < |ps|
    ensures HasPending(Hold(pending, ps), KeyOf(ps[i].msg))
  {
    var n := |ps| - 1;
    var before, after := Hold(pending, ps[..n]), Hold(pending, ps);
    HoldKeeps(pending, ps[..n]);
    UpsertPendingKeeps(before, ps[n]);
    if i < n {
      HoldStores(pending, ps[..n], i);
      var j :| 0 <= j < |before| && KeyOf(before[j].msg) == KeyOf(ps[i].msg);
      assert KeyOf(after[j].msg) == KeyOf(ps[i].msg);
    }
  }

  lemma {:induction false} BufferTxHolds(tx: Db, ps: seq<Pending>, fate: Fates)
    ensures BufferTx(tx, ps, fate).1 == Done ==> BufferTx(tx, ps, fate).0 == tx.(pending := Hold(tx.pending, ps))
  {
    if ps != [] { BufferTxHolds(tx, ps[..|ps| - 1], fate); }
  }

  lemma PendingBatchKeepsTables(db: Db, ps: seq<Pending>, fate: Fates)
    requires DbOk(db)
    ensures var (after, status) := PendingBatch(db, ps, fate);
      && DbOk(after)
      && (status != Done ==> after == db)
      && (status == Done ==> after == db.(pending := Hold(db.pending, ps)))
  {
    BufferTxHolds(db, ps, fate);
    HoldKeeps(db.pending, ps);
  }

  predicate AllHeld(fate: Fates, n: nat) {
    forall i :: 0 <= i < n ==> fate(Stmt.Buffer(i)) == Accepted
  }

  predicate OneRejected(fate: Fates, n: nat) {
    exists i :: 0 <= i < n && fate(Stmt.Buffer(i)) == Refused && AllHeld(fate, i)
  }

  lemma {:induction false} BufferTxOutcome(tx: Db, ps: seq<Pending>, fate: Fates)
    ensures BufferTx(tx, ps, fate).1 == Done <==> AllHeld(fate, |ps|)
    ensures BufferTx(tx, ps, fate).1 == BadMessage <==> OneRejected(fate, |ps|)
  {
    if ps != [] {
      var n := |ps| - 1;
      BufferTxOutcome(tx, ps[..n], fate);
      if OneRejected(fate, n) {
        var i :| 0 <= i < n && fate(Stmt.Buffer(i)) == Refused && AllHeld(fate, i);
        assert 0 <= i < |ps|;
      }
      if OneRejected(fate, |ps|) && !OneRejected(fate, n) {
        var i :| 0 <= i < |ps| && fate(Stmt.Buffer(i)) == Refused && AllHeld(fate, i);
        assert i == n;
      }
    }
  }

  /** A batch is buffered exactly when every statement is accepted; the first refused row rejects it. */
  lemma PendingBatchOutcome(db: Db, ps: seq<Pending>, fate: Fates)
    requires ps != []
    ensures PendingBatch(db, ps, fate).1 == Done <==>
      fate(Begin) == Accepted && fate(Commit) == Accepted && AllHeld(fate, |ps|)
    ensures PendingBatch(db, ps, fate).1 == BadMessage <==> fate(Begin) == Accepted && OneRejected(fate, |ps|)
  {
    BufferTxOutcome(db, ps, fate);
    hide BufferTx;
  }

  /** The same message, first heard of at the same time from a chat of the same name and kind. */
  predicate SameArrival(p: Pending, q: Pending) {
    && p.msg.chat == q.msg.chat && p.msg.mid == q.msg.mid && p.msg.sent == q.msg.sent
    && p.title == q.title && p.kind == q.kind && p.received == q.received
  }

  /** A row first buffered by the batch carries the identity and the time of the first mention of its message. */
  lemma HoldFirsts(pending: seq<Pending>, ps: seq<Pending>, j: nat)
    requires PendingOk(pending) && j < |ps| && !HasPending(pending, KeyOf(ps[j].msg))
    requires forall i :: 0 <= i < j ==> KeyOf(ps[i].msg) != KeyOf(ps[j].msg)
    ensures exists p :: p in Hold(pending, ps) && SameArrival(p, ps[j])
  {
    var front, tail := ps[..j], ps[j + 1..];
    var before := Hold(pending, front);
    NoneHeld(pending, front, KeyOf(ps[j].msg));
    HoldKeeps(pending, front);
    assert ps == front + [ps[j]] + tail;
    HoldConcat(pending, front + [ps[j]], tail);
    HoldNew(pending, front, ps[j]);
    HoldStays(before + [ps[j].(msg := ps[j].msg.(id := 0))], tail);
  }

  lemma HoldNew(pending: seq<Pending>, front: seq<Pending>, p: Pending)
    requires PendingOk(pending) && !HasPending(Hold(pending, front), KeyOf(p.msg))
    ensures PendingOk(Hold(pending, front + [p]))
    ensures Hold(pending, front + [p]) == Hold(pending, front) + [p.(msg := p.msg.(id := 0))]
  {
    assert (front + [p])[..|front|] == front;
    HoldKeeps(pending, front + [p]);
    assert FindPending(Hold(pending, front), KeyOf(p.msg)) < 0;
  }

  lemma HoldStays(pending: seq<Pending>, ps: seq<Pending>)
    requires PendingOk(pending) && pending != []
    ensures exists p :: p in Hold(pending, ps) && SameArrival(p, pending[|pending| - 1])
  {
    var n, after := |pending| - 1, Hold(pending, ps);
    HoldKeeps(pending, ps);
    assert SamePending(pending[n], after[n]);
    assert after[n] in after;
  }

  lemma {:induction false} NoneHeld(pending: seq<Pending>, ps: seq<Pending>, k: Key)
    requires !HasPending(pending, k) && forall i :: 0 <= i < |ps| ==> KeyOf(ps[i].msg) != k
    ensures !HasPending(Hold(pending, ps), k)
  {
    if ps != [] { NoneHeld(pending, ps[..|ps| - 1], k); }
  }

  // ----- redelivery -----

  /** The same messages stamped at another time. */
  predicate Restamped(ps: seq<Pending>, qs: seq<Pending>) {
    |ps| == |qs| && forall i :: 0 <= i < |ps| ==> qs[i] == ps[i].(received := qs[i].received)
  }

  function LastPendingBody(ps: seq<Pending>, k: Key): Option<Body> {
    if ps == [] then None
    else if KeyOf(ps[|ps| - 1].msg) == k then Some(ps[|ps| - 1].msg.body)
    else LastPendingBody(ps[..|ps| - 1], k)
  }

  /** A key the batch mentions ends up with its last body, any other row is untouched. */
  lemma {:induction false} HoldBodies(pending: seq<Pending>, ps: seq<Pending>, i: nat)
    requires PendingOk(pending) && i < |Hold(pending, ps)|
    ensures var p := Hold(pending, ps)[i];
      && (LastPendingBody(ps, KeyOf(p.msg)).Some? ==> LastPendingBody(ps, KeyOf(p.msg)).value == p.msg.body)
      && (LastPendingBody(ps, KeyOf(p.msg)).None? ==> i < |pending| && p == pending[i])
  {
    if ps != [] {
      var n := |ps| - 1;
      HoldKeeps(pending, ps[..n]);
      if i < |Hold(pending, ps[..n])| { HoldBodies(pending, ps[..n], i); }
    }
  }

  lemma {:induction false} RestampedBodies(ps: seq<Pending>, qs: seq<Pending>, k: Key)
    requires Restamped(ps, qs)
    ensures LastPendingBody(ps, k) == LastPendingBody(qs, k)
  {
    if ps != [] { RestampedBodies(ps[..|ps| - 1], qs[..|qs| - 1], k); }
  }

  lemma {:induction false} HoldConcat(pending: seq<Pending>, p: seq<Pending>, q: seq<Pending>)
    ensures Hold(pending, p + q) == Hold(Hold(pending, p), q)
  {
    if q == [] {
      assert p + q == p;
    } else {
      var n := |q| - 1;
      assert (p + q)[..|p + q| - 1] == p + q[..n] && (p + q)[|p + q| - 1] == q[n];
      HoldConcat(pending, p, q[..n]);
    }
  }

  lemma {:induction false} HoldKnown(pending: seq<Pending>, ps: seq<Pending>)
    requires PendingOk(pending) && forall i :: 0 <= i < |ps| ==> HasPending(pending, KeyOf(ps[i].msg))
    ensures |Hold(pending, ps)| == |pending|
  {
    if ps != [] {
      var n := |ps| - 1;
      forall i | 0 <= i < n ensures HasPending(pending, KeyOf(ps[..n][i].msg)) { assert ps[..n][i] == ps[i]; }
      HoldKnown(pending, ps[..n]);
      HoldKeeps(pending, ps[..n]);
      assert HasPending(pending, KeyOf(ps[n].msg));
      var j :| 0 <= j < |pending| && KeyOf(pending[j].msg) == KeyOf(ps[n].msg);
      assert KeyOf(Hold(pending, ps[..n])[j].msg) == KeyOf(ps[n].msg);
    }
  }

  lemma HoldTwice(pending: seq<Pending>, ps: seq<Pending>, qs: seq<Pending>)
    requires PendingOk(pending) && Restamped(ps, qs)
    ensures Hold(Hold(pending, ps), qs) == Hold(pending, ps)
  {
    var once := Hold(pending, ps);
    HoldKeeps(pending, ps);
    forall i | 0 <= i < |qs| ensures HasPending(once, KeyOf(qs[i].msg)) { HoldStores(pending, ps, i); }
    HoldKnown(once, qs);
    HoldKeeps(once, qs);
    forall i | 0 <= i < |once| ensures Hold(once, qs)[i] == once[i] {
      HoldBodies(once, qs, i);
      HoldBodies(pending, ps, i);
      RestampedBodies(ps, qs, KeyOf(once[i].msg));
    }
  }

  /**
   Redelivery is absorbed by the buffer too: the first attempt's stamps stay, so buffering a batch and
   later the same batch with a longer tail is buffering the first and then the tail alone.
   */
  lemma BufferedRedeliveryIsAbsorbed(
      db: Db, ps: seq<Pending>, qs: seq<Pending>, tail: seq<Pending>, f: Fates, g: Fates, h: Fates)
    requires DbOk(db) && Restamped(ps, qs)
    requires PendingBatch(db, ps, f).1 == Done && PendingBatch(PendingBatch(db, ps, f).0, qs + tail, g).1 == Done
    requires PendingBatch(db, ps + tail, h).1 == Done
    ensures PendingBatch(PendingBatch(db, ps, f).0, qs + tail, g).0 == PendingBatch(db, ps + tail, h).0
  {
    var first := PendingBatch(db, ps, f).0;
    PendingBatchKeepsTables(db, ps, f);
    PendingBatchKeepsTables(first, qs + tail, g);
    PendingBatchKeepsTables(db, ps + tail, h);
    HoldConcat(first.pending, qs, tail);
    HoldConcat(db.pending, ps, tail);
    HoldTwice(db.pending, ps, qs);
  }

  // ----- replay -----

  /** Seconds RFC 3339 writes with a four-digit year, the ones that parse back. */
  predicate Datable(t: int) {
    -62167219200 <= t <= 253402300799
  }

  predicate Decodable(p: Pending) {
    Datable(p.received) && Datable(p.msg.sent) && (p.msg.body.edited != 0 ==> Datable(p.msg.body.edited))
  }

  function OfChat(pending: seq<Pending>, chat: int): seq<Pending> {
    Where(pending, (p: Pending) => p.msg.chat == chat)
  }

  function NotOfChat(pending: seq<Pending>, chat: int): seq<Pending> {
    Where(pending, (p: Pending) => p.msg.chat != chat)
  }

  /** One chat's buffer in the order it was sent. */
  function InOrder(pending: seq<Pending>, chat: int): seq<Pending> {
    Sort(OfChat(pending, chat), (p: Pending) => Pos(p.msg.sent, p.msg.mid))
  }

  /** pendingOf: the messages that decode, and the ids of the rows that do not. */
  function Good(ps: seq<Pending>): seq<Message> {
    if ps == [] then []
    else Good(ps[..|ps| - 1]) + (if Decodable(ps[|ps| - 1]) then [ps[|ps| - 1].msg] else [])
  }

  function Bad(ps: seq<Pending>): seq<int> {
    if ps == [] then []
    else Bad(ps[..|ps| - 1]) + (if Decodable(ps[|ps| - 1]) then [] else [ps[|ps| - 1].msg.mid])
  }

  /** The transaction so far: its tables, the messages moved, the ids dropped, and how it is going. */
  datatype Replay = Replay(tx: Db, moved: seq<Message>, dropped: seq<int>, status: Status)

  /** replayOne: an upsert inside a savepoint, undone to the savepoint when any of its statements fails. */
  function ReplayOne(tx: Db, m: Message, fate: Fates, i: nat): (Db, Status) {
    if fate(Savepoint(i)) != Accepted then (tx, Failed)
    else
      var (written, status) := UpsertTx(tx, m, fate, i);
      if status != Done && fate(RollbackTo(i)) != Accepted then (written, Failed)
      else
        var settled := if status != Done then tx else written;
        if fate(Release(i)) != Accepted then (settled, Failed) else (settled, status)
  }

  function ReplayRows(start: Replay, msgs: seq<Message>, fate: Fates): Replay {
    if msgs == [] then start
    else
      var n := |msgs| - 1;
      var m := msgs[n];
      var r := ReplayRows(start, msgs[..n], fate);
      if r.status != Done then r
      else
        match ReplayOne(r.tx, m, fate, n)
        case (tx, Done) => Replay(tx, r.moved + [m], r.dropped, Done)
        case (tx, BadMessage) => Replay(tx, r.moved, r.dropped + [m.mid], Done)
        case (tx, Failed) => Replay(tx, r.moved, r.dropped, Failed)
  }

  /** replayChat: one chat, one transaction; only a database-wide failure aborts it. */
  function ReplayChat(db: Db, chat: int, fate: Fates): Replay {
    var aborted := Replay(db, [], [], Failed);
    var buffered := InOrder(db.pending, chat);
    if fate(Begin) != Accepted || fate(ReadBuffer) != Accepted then aborted
    else if buffered == [] then Replay(db, [], [], Done)
    else
      var r := ReplayRows(Replay(db, [], Bad(buffered), Done), Good(buffered), fate);
      if r.status != Done || fate(DropBuffer) != Accepted || fate(Commit) != Accepted then aborted
      else r.(tx := r.tx.(pending := NotOfChat(r.tx.pending, chat)))
  }

  function Mids(msgs: seq<Message>): (r: seq<int>)
    ensures |r| == |msgs|
  {
    seq(|msgs|, i requires 0 <= i < |msgs| => msgs[i].mid)
  }

  function PendingMids(ps: seq<Pending>): (r: seq<int>)
    ensures |r| == |ps|
  {
    seq(|ps|, i requires 0 <= i < |ps| => ps[i].msg.mid)
  }

  lemma ReplayOneKeeps(tx: Db, m: Message, fate: Fates, i: nat)
    requires DbOk(tx)
    ensures var (after, status) := ReplayOne(tx, m, fate, i);
      && (status == Done ==> DbOk(after) && after == Db(UpsertRow(tx.rows, m), after.fts, tx.pending, tx.cursors))
      && (status == BadMessage ==> after == tx)
  {
    if UpsertTx(tx, m, fate, i).1 == Done { UpsertTxKeeps(tx, m, fate, i); }
  }

  lemma MidsPush(msgs: seq<Message>, m: Message)
    ensures multiset(Mids(msgs + [m])) == multiset(Mids(msgs)) + multiset{m.mid}
  {
    assert Mids(msgs + [m]) == Mids(msgs) + [m.mid];
  }

  /** The tables a replay leaves are those of the moved messages alone. */
  lemma {:induction false} ReplayRowsApplies(start: Replay, msgs: seq<Message>, fate: Fates)
    requires DbOk(start.tx) && start.status == Done && start.moved == []
    ensures var r := ReplayRows(start, msgs, fate);
      r.status == Done ==>
        && DbOk(r.tx)
        && r.tx == Db(Apply(start.tx.rows, r.moved), r.tx.fts, start.tx.pending, start.tx.cursors)
  {
    if msgs != [] {
      var n := |msgs| - 1;
      var before, r := ReplayRows(start, msgs[..n], fate), ReplayRows(start, msgs, fate);
      ReplayRowsApplies(start, msgs[..n], fate);
      if r.status == Done {
        ReplayOneKeeps(before.tx, msgs[n], fate, n);
        assert (before.moved + [msgs[n]])[..|before.moved|] == before.moved;
      }
    }
  }

  /** One more message was either moved or dropped. */
  predicate OneMore(before: Replay, after: Replay, m: Message) {
    || (after.moved == before.moved + [m] && after.dropped == before.dropped)
    || (after.moved == before.moved && after.dropped == before.dropped + [m.mid])
  }

  lemma ReplayRowsStep(start: Replay, msgs: seq<Message>, fate: Fates)
    requires msgs != [] && ReplayRows(start, msgs, fate).status == Done
    ensures ReplayRows(start, msgs[..|msgs| - 1], fate).status == Done
    ensures OneMore(ReplayRows(start, msgs[..|msgs| - 1], fate), ReplayRows(start, msgs, fate), msgs[|msgs| - 1])
  {
  }

  predicate Conserved(r: Replay, msgs: seq<Message>, bad: seq<int>) {
    && multiset(Mids(r.moved)) + multiset(r.dropped) == multiset(Mids(msgs)) + multiset(bad)
    && (forall m :: m in r.moved ==> m in msgs)
  }

  lemma OneMoreEither(a: multiset<int>, b: multiset<int>, one: multiset<int>)
    ensures (a + one) + b == (a + b) + one
    ensures a + (b + one) == (a + b) + one
  {
  }

  lemma ConservedStep(before: Replay, after: Replay, msgs: seq<Message>, m: Message, bad: seq<int>)
    requires Conserved(before, msgs, bad) && OneMore(before, after, m)
    ensures Conserved(after, msgs + [m], bad)
  {
    MidsPush(msgs, m);
    MidsPush(before.moved, m);
    var a, b, one := multiset(Mids(before.moved)), multiset(before.dropped), multiset{m.mid};
    var x, y := multiset(Mids(msgs)), multiset(bad);
    assert multiset(before.dropped + [m.mid]) == b + one;
    OneMoreEither(a, b, one);
    OneMoreEither(x, y, one);
  }

  /** Every message is either moved or dropped. */
  lemma {:induction false} ReplayRowsConserves(start: Replay, msgs: seq<Message>, fate: Fates)
    requires start.status == Done && start.moved == [] && ReplayRows(start, msgs, fate).status == Done
    ensures Conserved(ReplayRows(start, msgs, fate), msgs, start.dropped)
  {
    if msgs == [] {
      hide ReplayOne;
      assert ReplayRows(start, msgs, fate) == start;
    } else {
      hide ReplayRows, ReplayOne, Mids, Conserved, OneMore;
      var front, m := msgs[..|msgs| - 1], msgs[|msgs| - 1];
      ReplayRowsStep(start, msgs, fate);
      ReplayRowsConserves(start, front, fate);
      ConservedStep(ReplayRows(start, front, fate), ReplayRows(start, msgs, fate), front, m, start.dropped);
      assert front + [m] == msgs;
    }
  }

  lemma PendingMidsPush(ps: seq<Pending>, p: Pending)
    ensures multiset(PendingMids(ps + [p])) == multiset(PendingMids(ps)) + multiset{p.msg.mid}
  {
    assert PendingMids(ps + [p]) == PendingMids(ps) + [p.msg.mid];
  }

  lemma GoodAndBadPush(ps: seq<Pending>, p: Pending)
    ensures Decodable(p) ==> Good(ps + [p]) == Good(ps) + [p.msg] && Bad(ps + [p]) == Bad(ps)
    ensures !Decodable(p) ==> Good(ps + [p]) == Good(ps) && Bad(ps + [p]) == Bad(ps) + [p.msg.mid]
  {
    assert (ps + [p])[..|ps|] == ps;
  }

  lemma {:induction false} GoodAndBad(ps: seq<Pending>)
    ensures multiset(Mids(Good(ps))) + multiset(Bad(ps)) == multiset(PendingMids(ps))
  {
    if ps != [] {
      var front, p := ps[..|ps| - 1], ps[|ps| - 1];
      GoodAndBad(front);
      assert ps == front + [p];
      GoodAndBadPush(front, p);
      PendingMidsPush(front, p);
      MidsPush(Good(front), p.msg);
      hide Good, Bad, Mids, PendingMids, Decodable;
      OneMoreEither(multiset(Mids(Good(front))), multiset(Bad(front)), multiset{p.msg.mid});
    }
  }

  lemma {:induction false} GoodAreBuffered(ps: seq<Pending>, m: Message)
    requires m in Good(ps)
    ensures exists p :: p in ps && p.msg == m
  {
    var n := |ps| - 1;
    if m in Good(ps[..n]) {
      GoodAreBuffered(ps[..n], m);
      var p :| p in ps[..n] && p.msg == m;
      assert p in ps;
    } else {
      assert ps[n] in ps;
    }
  }

  lemma PendingMidsCons(p: Pending, rest: seq<Pending>)
    ensures multiset(PendingMids([p] + rest)) == multiset{p.msg.mid} + multiset(PendingMids(rest))
  {
    assert PendingMids([p] + rest) == [p.msg.mid] + PendingMids(rest);
  }

  lemma {:induction false} InsertMids(xs: seq<Pending>, x: Pending, key: Pending -> Pos)
    ensures multiset(PendingMids(Insert(xs, x, key))) == multiset(PendingMids(xs)) + multiset{x.msg.mid}
  {
    hide PendingMids;
    PendingMidsCons(x, xs);
    if xs != [] {
      InsertMids(xs[1..], x, key);
      PendingMidsCons(xs[0], Insert(xs[1..], x, key));
      assert xs == [xs[0]] + xs[1..];
      PendingMidsCons(xs[0], xs[1..]);
    }
  }

  lemma {:induction false} SortMids(xs: seq<Pending>, key: Pending -> Pos)
    ensures multiset(PendingMids(Sort(xs, key))) == multiset(PendingMids(xs))
  {
    if xs != [] {
      SortMids(xs[1..], key);
      InsertMids(Sort(xs[1..], key), xs[0], key);
      assert xs == [xs[0]] + xs[1..];
      PendingMidsCons(xs[0], xs[1..]);
    }
  }

  lemma {:induction false} WherePending(pending: seq<Pending>, keep: Pending -> bool)
    requires PendingOk(pending)
    ensures PendingOk(Where(pending, keep))
  {
    if pending != [] {
      var n := |pending| - 1;
      WherePending(pending[..n], keep);
      WhereMeans(pending[..n], keep);
      forall p | p in Where(pending[..n], keep) ensures KeyOf(p.msg) != KeyOf(pending[n].msg) {
        var i :| 0 <= i < n && pending[..n][i] == p;
        assert pending[i] == p;
      }
    }
  }

  lemma NotOfChatKeeps(pending: seq<Pending>, chat: int)
    requires PendingOk(pending)
    ensures PendingOk(NotOfChat(pending, chat))
    ensures OfChat(NotOfChat(pending, chat), chat) == []
    ensures forall other :: other != chat ==> OfChat(NotOfChat(pending, chat), other) == OfChat(pending, other)
  {
    WherePending(pending, (p: Pending) => p.msg.chat != chat);
    WhereWhere(pending, (p: Pending) => p.msg.chat != chat, (p: Pending) => p.msg.chat == chat);
    forall other | other != chat ensures OfChat(NotOfChat(pending, chat), other) == OfChat(pending, other) {
      WhereWhere(pending, (p: Pending) => p.msg.chat != chat, (p: Pending) => p.msg.chat == other);
    }
  }

  /**
   A conserving atomic move. On success the chat has nothing buffered, every row it had is either in
   messages or named as dropped (as multisets of ids, so the counts add up too), only the moved
   messages were written, other chats' buffers are untouched and the index agrees with the table. On
   a database-wide failure at any statement nothing changes at all.
   */
  lemma ReplayIsConserving(db: Db, chat: int, fate: Fates)
    requires DbOk(db)
    ensures var r := ReplayChat(db, chat, fate);
      && r.status != BadMessage
      && DbOk(r.tx)
      && (r.status == Failed ==> r.tx == db)
      && (r.status == Done ==>
        && OfChat(r.tx.pending, chat) == []
        && (forall other :: other != chat ==> OfChat(r.tx.pending, other) == OfChat(db.pending, other))
        && multiset(Mids(r.moved)) + multiset(r.dropped) == multiset(PendingMids(OfChat(db.pending, chat)))
        && |r.moved| + |r.dropped| == |OfChat(db.pending, chat)|
        && (forall m :: m in r.moved ==> exists p :: p in OfChat(db.pending, chat) && p.msg == m)
        && r.tx.rows == Apply(db.rows, r.moved) && r.tx.cursors == db.cursors)
  {
    var r := ReplayChat(db, chat, fate);
    var of := OfChat(db.pending, chat);
    var buffered := InOrder(db.pending, chat);
    SortKeeps(of, (p: Pending) => Pos(p.msg.sent, p.msg.mid));
    SortMids(of, (p: Pending) => Pos(p.msg.sent, p.msg.mid));
    NotOfChatKeeps(db.pending, chat);
    if r.status == Done {
      if buffered == [] {
        assert |of| == 0;
        assert Mids([]) == [] && PendingMids([]) == [];
      } else {
        ReplayRowsApplies(Replay(db, [], Bad(buffered), Done), Good(buffered), fate);
        ReplayRowsConserves(Replay(db, [], Bad(buffered), Done), Good(buffered), fate);
        GoodAndBad(buffered);
        CountsAddUp(Mids(r.moved), r.dropped, PendingMids(of));
        forall m | m in r.moved ensures exists p :: p in of && p.msg == m {
          GoodAreBuffered(buffered, m);
          var p :| p in buffered && p.msg == m;
          assert p in of;
        }
      }
    }
  }

  lemma CountsAddUp(a: seq<int>, b: seq<int>, c: seq<int>)
    requires multiset(a) + multiset(b) == multiset(c)
    ensures |a| + |b| == |c|
  {
    assert |multiset(a)| == |a| && |multiset(b)| == |b| && |multiset(c)| == |c|;
    assert |multiset(a) + multiset(b)| == |a| + |b|;
  }

  /** After a replay each former row of the chat is in messages or named in dropped. */
  lemma ReplayAccountsForEach(db: Db, chat: int, fate: Fates, p: Pending)
    requires DbOk(db) && p in db.pending && p.msg.chat == chat && ReplayChat(db, chat, fate).status == Done
    ensures var r := ReplayChat(db, chat, fate);
      HasRow(r.tx.rows, KeyOf(p.msg)) || p.msg.mid in r.dropped
  {
    var r := ReplayChat(db, chat, fate);
    ReplayIsConserving(db, chat, fate);
    var of := OfChat(db.pending, chat);
    WhereMeans(db.pending, (q: Pending) => q.msg.chat == chat);
    assert p in of;
    var i :| 0 <= i < |of| && of[i] == p;
    assert PendingMids(of)[i] == p.msg.mid;
    assert p.msg.mid in multiset(PendingMids(of));
    if p.msg.mid !in r.dropped {
      assert p.msg.mid in multiset(Mids(r.moved));
      var j :| 0 <= j < |r.moved| && Mids(r.moved)[j] == p.msg.mid;
      var m := r.moved[j];
      assert m in r.moved;
      var q :| q in of && q.msg == m;
      assert KeyOf(m) == KeyOf(p.msg);
      ApplyKeeps(db.rows, r.moved);
    }
  }

  // ----- what is held of a message -----

  function PendingBody(pending: seq<Pending>, k: Key): Option<Body> {
    var i := FindPending(pending, k);
    if i < 0 then None else Some(pending[i].msg.body)
  }

  /** The latest the store has of a message: its buffered row, or else its row in messages. */
  function CurrentBody(db: Db, k: Key): Option<Body> {
    var buffered := PendingBody(db.pending, k);
    if buffered.Some? then buffered else RowBody(db.rows, k)
  }

  lemma PendingBodyOf(pending: seq<Pending>, p: Pending)
    requires PendingOk(pending) && p in pending
    ensures PendingBody(pending, KeyOf(p.msg)) == Some(p.msg.body)
  {
    var i :| 0 <= i < |pending| && pending[i] == p;
  }

  lemma PendingBodyFrom(pending: seq<Pending>, k: Key)
    ensures PendingBody(pending, k).Some? ==>
      exists p :: p in pending && KeyOf(p.msg) == k && p.msg.body == PendingBody(pending, k).value
  {
    var i := FindPending(pending, k);
    if i >= 0 { assert pending[i] in pending; }
  }

  lemma NoPendingBody(pending: seq<Pending>, k: Key)
    requires forall p :: p in pending ==> KeyOf(p.msg) != k
    ensures PendingBody(pending, k).None?
  {
    PendingBodyFrom(pending, k);
  }

  /** Buffering replaces the body of what it mentions by its last word and leaves every other. */
  lemma HoldPendingBody(pending: seq<Pending>, ps: seq<Pending>, k: Key)
    requires PendingOk(pending)
    ensures PendingBody(Hold(pending, ps), k) ==
      if LastPendingBody(ps, k).Some? then LastPendingBody(ps, k) else PendingBody(pending, k)
  {
    var after := Hold(pending, ps);
    HoldKeeps(pending, ps);
    LastPendingMentions(ps, k);
    if LastPendingBody(ps, k).Some? {
      var j :| 0 <= j < |ps| && KeyOf(ps[j].msg) == k;
      HoldStores(pending, ps, j);
    }
    hide PendingOk, Hold, LastPendingBody;
    var i, at := FindPending(after, k), FindPending(pending, k);
    if i >= 0 { HoldBodies(pending, ps, i); }
    if at >= 0 { assert KeyOf(after[at].msg) == k; }
  }

  lemma {:induction false} LastPendingMentions(ps: seq<Pending>, k: Key)
    ensures LastPendingBody(ps, k).Some? <==> exists j :: 0 <= j < |ps| && KeyOf(ps[j].msg) == k
  {
    if ps != [] {
      var n := |ps| - 1;
      LastPendingMentions(ps[..n], k);
      if LastPendingBody(ps[..n], k).Some? {
        var j :| 0 <= j < n && KeyOf(ps[..n][j].msg) == k;
        assert KeyOf(ps[j].msg) == k;
      }
      if j :| 0 <= j < |ps| && KeyOf(ps[j].msg) == k {
        if j < n { assert KeyOf(ps[..n][j].msg) == k; }
      }
    }
  }

  // ----- one chat's rows, one by one -----

  lemma OneOfEachMid(ps: seq<Pending>, i: nat)
    requires i < |ps| && forall a, b :: 0 <= a < b < |ps| ==> ps[a].msg.mid != ps[b].msg.mid
    ensures multiset(PendingMids(ps))[ps[i].msg.mid] == 1
  {
    var s, x := PendingMids(ps), ps[i].msg.mid;
    assert s == s[..i] + [x] + s[i + 1..];
    assert x !in s[..i] && x !in s[i + 1..];
  }

  lemma MidsApart(pending: seq<Pending>, chat: int)
    requires PendingOk(pending)
    ensures var of := OfChat(pending, chat);
      forall a, b :: 0 <= a < b < |of| ==> of[a].msg.mid != of[b].msg.mid
  {
    var of := OfChat(pending, chat);
    WherePending(pending, (p: Pending) => p.msg.chat == chat);
    WhereMeans(pending, (p: Pending) => p.msg.chat == chat);
    forall a, b | 0 <= a < b < |of| ensures of[a].msg.mid != of[b].msg.mid {
      assert of[a] in of && of[b] in of;
      assert KeyOf(of[a].msg) != KeyOf(of[b].msg);
    }
  }

  lemma InMids(msgs: seq<Message>, mid: int)
    requires mid in Mids(msgs)
    ensures exists m :: m in msgs && m.mid == mid
  {
    var j :| 0 <= j < |msgs| && Mids(msgs)[j] == mid;
    assert msgs[j] in msgs;
  }

  lemma MovedIsTheRow(of: seq<Pending>, moved: seq<Message>, p: Pending)
    requires p in of && forall a, b :: 0 <= a < b < |of| ==> of[a].msg.mid != of[b].msg.mid
    requires forall m :: m in moved ==> exists q :: q in of && q.msg == m
    ensures p.msg in moved <==> p.msg.mid in Mids(moved)
  {
    var x := p.msg.mid;
    if x in Mids(moved) {
      InMids(moved, x);
      var m :| m in moved && m.mid == x;
      var q :| q in of && q.msg == m;
      var i :| 0 <= i < |of| && of[i] == p;
      var j :| 0 <= j < |of| && of[j] == q;
      assert i == j;
    }
    if p.msg in moved {
      var j :| 0 <= j < |moved| && moved[j] == p.msg;
      assert Mids(moved)[j] == x;
    }
  }

  lemma OneSide(a: seq<int>, b: seq<int>, c: seq<int>, x: int)
    requires multiset(a) + multiset(b) == multiset(c) && multiset(c)[x] == 1
    ensures x in a <==> x !in b
  {
    assert multiset(a)[x] + multiset(b)[x] == 1;
  }

  /** A replayed row is moved or named as dropped, and never both. */
  lemma ReplaySplits(db: Db, chat: int, fate: Fates, p: Pending)
    requires DbOk(db) && p in db.pending && p.msg.chat == chat && ReplayChat(db, chat, fate).status == Done
    ensures p.msg in ReplayChat(db, chat, fate).moved <==> p.msg.mid !in ReplayChat(db, chat, fate).dropped
  {
    var r, of := ReplayChat(db, chat, fate), OfChat(db.pending, chat);
    ReplayIsConserving(db, chat, fate);
    MidsApart(db.pending, chat);
    WhereMeans(db.pending, (q: Pending) => q.msg.chat == chat);
    hide ReplayChat, DbOk, PendingMids, Mids;
    var i :| 0 <= i < |of| && of[i] == p;
    hide OfChat, Where;
    OneOfEachMid(of, i);
    OneSide(Mids(r.moved), r.dropped, PendingMids(of), p.msg.mid);
    MovedIsTheRow(of, r.moved, p);
  }

  /** A time in the years 0 to 9999, counted in days from 1970. */
  predicate InFourDigitYears(t: int) {
    -719528 * 86400 <= t < 2932897 * 86400
  }

  /** Every time of the row has a four-digit year, and so reads back. */
  predicate Readable(p: Pending) {
    && InFourDigitYears(p.received) && InFourDigitYears(p.msg.sent)
    && (p.msg.body.edited != 0 ==> InFourDigitYears(p.msg.body.edited))
  }

  predicate SentBefore(a: Message, b: Message) {
    a.sent < b.sent || (a.sent == b.sent && a.mid < b.mid)
  }

  predicate BySent(msgs: seq<Message>) {
    forall i, j :: 0 <= i < j < |msgs| ==> SentBefore(msgs[i], msgs[j])
  }

  /** A readable row of the chat holds this message. */
  ghost predicate HeldReadable(pending: seq<Pending>, chat: int, m: Message) {
    exists p :: p in pending && p.msg == m && m.chat == chat && Readable(p)
  }

  /** The savepoint of message `i` opens and closes, around a message that is taken or refused. */
  predicate Settles(fate: Fates, i: nat) {
    && fate(Savepoint(i)) == Accepted && fate(Release(i)) == Accepted
    && (Takes(fate, i) || (Refuses(fate, i) && fate(RollbackTo(i)) == Accepted))
  }

  predicate AllSettle(fate: Fates, n: nat) {
    forall i :: 0 <= i < n ==> Settles(fate, i)
  }

  predicate TakenFrom(msgs: seq<Message>, fate: Fates, m: Message) {
    exists i :: 0 <= i < |msgs| && msgs[i] == m && Takes(fate, i)
  }

  function Taken(msgs: seq<Message>, fate: Fates): seq<Message> {
    if msgs == [] then []
    else
      var n := |msgs| - 1;
      Taken(msgs[..n], fate) + (if Takes(fate, n) then [msgs[n]] else [])
  }

  lemma {:induction false} ReplayRowsOutcome(start: Replay, msgs: seq<Message>, fate: Fates)
    requires start.status == Done && start.moved == []
    ensures var r := ReplayRows(start, msgs, fate);
      && (r.status == Done <==> AllSettle(fate, |msgs|))
      && (r.status == Done ==> r.moved == Taken(msgs, fate))
  {
    if msgs != [] {
      var n := |msgs| - 1;
      ReplayRowsOutcome(start, msgs[..n], fate);
      var before := ReplayRows(start, msgs[..n], fate);
      OneOutcome(before.tx, msgs[n], fate, n);
      hide ReplayOne, Settles, Takes;
    }
  }

  lemma OneOutcome(tx: Db, m: Message, fate: Fates, i: nat)
    ensures ReplayOne(tx, m, fate, i).1 != Failed <==> Settles(fate, i)
    ensures ReplayOne(tx, m, fate, i).1 != Failed ==> (ReplayOne(tx, m, fate, i).1 == Done <==> Takes(fate, i))
  {
  }

  lemma {:induction false} TakenMeans(msgs: seq<Message>, fate: Fates)
    requires BySent(msgs)
    ensures BySent(Taken(msgs, fate))
    ensures forall m :: m in Taken(msgs, fate) <==> TakenFrom(msgs, fate, m)
  {
    hide Takes;
    if msgs != [] {
      var n := |msgs| - 1;
      var front, taken := Taken(msgs[..n], fate), Taken(msgs, fate);
      TakenMeans(msgs[..n], fate);
      forall m ensures m in taken <==> TakenFrom(msgs, fate, m) {
        if i :| 0 <= i < n && msgs[i] == m && Takes(fate, i) { assert msgs[..n][i] == m; }
        if i :| 0 <= i < n && msgs[..n][i] == m && Takes(fate, i) { assert msgs[i] == m; }
      }
      forall i | 0 <= i < |front| ensures SentBefore(front[i], msgs[n]) {
        assert front[i] in front;
        var k :| 0 <= k < n && msgs[..n][k] == front[i] && Takes(fate, k);
        assert SentBefore(msgs[k], msgs[n]);
      }
    }
  }

  /** Rows in the order they were sent. */
  predicate RowsBySent(ps: seq<Pending>) {
    forall i, j :: 0 <= i < j < |ps| ==> SentBefore(ps[i].msg, ps[j].msg)
  }

  lemma {:induction false} GoodMeans(ps: seq<Pending>)
    requires RowsBySent(ps)
    ensures BySent(Good(ps))
    ensures forall m :: m in Good(ps) <==> exists p :: p in ps && p.msg == m && Readable(p)
  {
    if ps != [] {
      var n := |ps| - 1;
      var front, p := ps[..n], ps[n];
      assert RowsBySent(front);
      GoodMeans(front);
      assert ps == front + [p];
      assert Decodable(p) <==> Readable(p);
      hide Decodable, Readable, SentBefore;
      GoodBefore(ps, Good(front));
    }
  }

  lemma GoodBefore(ps: seq<Pending>, good: seq<Message>)
    requires ps != [] && RowsBySent(ps)
    requires forall m :: m in good ==> exists p :: p in ps[..|ps| - 1] && p.msg == m
    ensures forall i :: 0 <= i < |good| ==> SentBefore(good[i], ps[|ps| - 1].msg)
  {
    hide SentBefore;
    var n := |ps| - 1;
    forall i | 0 <= i < |good| ensures SentBefore(good[i], ps[n].msg) {
      assert good[i] in good;
      var q :| q in ps[..n] && q.msg == good[i];
      var k :| 0 <= k < n && ps[..n][k] == q;
      assert SentBefore(ps[k].msg, ps[n].msg);
    }
  }

  lemma InOrderMeans(pending: seq<Pending>, chat: int)
    requires PendingOk(pending)
    ensures RowsBySent(InOrder(pending, chat))
    ensures forall p :: p in InOrder(pending, chat) <==> p in pending && p.msg.chat == chat
  {
    var key, of := (p: Pending) => Pos(p.msg.sent, p.msg.mid), OfChat(pending, chat);
    var ps := InOrder(pending, chat);
    WhereMeans(pending, (p: Pending) => p.msg.chat == chat);
    SortKeeps(of, key);
    MidsApart(pending, chat);
    SortMids(of, key);
    hide Sort, OfChat, PendingOk;
    forall p ensures p in ps <==> p in pending && p.msg.chat == chat {
      assert p in multiset(ps) <==> p in multiset(of);
    }
    forall i, j | 0 <= i < j < |ps| ensures SentBefore(ps[i].msg, ps[j].msg) {
      assert !Before(key(ps[j]), key(ps[i]));
      SortedMidsApart(of, ps, i, j);
    }
  }

  lemma SortedMidsApart(of: seq<Pending>, ps: seq<Pending>, i: nat, j: nat)
    requires i < j < |ps| && multiset(PendingMids(ps)) == multiset(PendingMids(of))
    requires forall a, b :: 0 <= a < b < |of| ==> of[a].msg.mid != of[b].msg.mid
    ensures ps[i].msg.mid != ps[j].msg.mid
  {
    var s, t, x := PendingMids(ps), PendingMids(of), ps[i].msg.mid;
    if ps[j].msg.mid == x {
      assert s == s[..i] + [s[i]] + s[i + 1..j] + [s[j]] + s[j + 1..];
      assert multiset(s)[x] >= 2;
      assert x in multiset(t);
      var a :| 0 <= a < |t| && t[a] == x;
      OneOfEachMid(of, a);
    }
  }

  /** The messages a chat's replay tries, and no others, in the order they were sent. */
  lemma Tried(db: Db, chat: int) returns (good: seq<Message>)
    requires DbOk(db)
    ensures good == Good(InOrder(db.pending, chat)) && BySent(good)
    ensures forall m :: m in good <==> HeldReadable(db.pending, chat, m)
    ensures InOrder(db.pending, chat) == [] <==> forall p :: p in db.pending ==> p.msg.chat != chat
  {
    var ps := InOrder(db.pending, chat);
    good := Good(ps);
    InOrderMeans(db.pending, chat);
    GoodMeans(ps);
    hide InOrder, Good, Readable;
    if p :| p in db.pending && p.msg.chat == chat { assert p in ps; }
    if ps != [] { assert ps[0] in ps; }
  }

  lemma OnlyOnce(good: seq<Message>, i: nat, j: nat)
    requires BySent(good) && i < |good| && j < |good| && good[i] == good[j]
    ensures i == j
  {
    assert forall a, b :: 0 <= a < b < |good| && SentBefore(good[a], good[b]) ==> good[a] != good[b];
  }

  /** Of the messages tried, those taken are moved. */
  lemma MovedIff(good: seq<Message>, fate: Fates, moved: seq<Message>, i: nat)
    requires BySent(good) && i < |good| && AllSettle(fate, |good|) && moved == Taken(good, fate)
    ensures good[i] in moved <==> !Refuses(fate, i)
  {
    TakenMeans(good, fate);
    assert Settles(fate, i);
    assert Takes(fate, i) <==> !Refuses(fate, i);
    hide Takes, Refuses, Taken;
    if good[i] in moved {
      var j :| 0 <= j < |good| && good[j] == good[i] && Takes(fate, j);
      OnlyOnce(good, i, j);
    }
  }

  /**
   How a chat's replay ends, by the answers of the database and the times of the rows alone. It succeeds
   exactly when the statements around the rows are accepted and every readable row settles. Then those of
   them that no statement refused are moved, in the order they were sent.
   */
  lemma ReplayOutcome(db: Db, chat: int, fate: Fates) returns (good: seq<Message>)
    requires DbOk(db)
    ensures BySent(good) && forall m :: m in good <==> HeldReadable(db.pending, chat, m)
    ensures var r := ReplayChat(db, chat, fate);
      && (r.status == Done <==>
        && fate(Begin) == Accepted && fate(ReadBuffer) == Accepted
        && (|| (forall p :: p in db.pending ==> p.msg.chat != chat)
            || (fate(DropBuffer) == Accepted && fate(Commit) == Accepted && AllSettle(fate, |good|))))
      && (r.status == Done ==> BySent(r.moved) && forall m :: m in r.moved ==> m in good)
      && (r.status == Done ==> forall i :: 0 <= i < |good| ==> (good[i] in r.moved <==> !Refuses(fate, i)))
  {
    var ps := InOrder(db.pending, chat);
    good := Tried(db, chat);
    ReplayRowsOutcome(Replay(db, [], Bad(ps), Done), good, fate);
    TakenMeans(good, fate);
    hide InOrder, Good, Bad, ReplayRows, Refuses, HeldReadable, Settles, DbOk;
    var r := ReplayChat(db, chat, fate);
    if r.status == Done {
      if ps == [] {
        EmptyOrSome(good);
        forall m ensures m !in good { NoneReadable(db.pending, chat, m); }
      } else {
        assert r.moved == Taken(good, fate);
        forall i | 0 <= i < |good| ensures good[i] in r.moved <==> !Refuses(fate, i) {
          MovedIff(good, fate, r.moved, i);
        }
      }
    }
  }

  lemma NoneReadable(pending: seq<Pending>, chat: int, m: Message)
    requires forall p :: p in pending ==> p.msg.chat != chat
    ensures !HeldReadable(pending, chat, m)
  {
  }

  /**
   A successful replay drops a row of its chat exactly when some time of the row does not read back, or a
   statement of the row's own is refused; with every statement accepted, every readable row is moved.
   */
  lemma ReplayDropsIff(db: Db, chat: int, fate: Fates, p: Pending) returns (good: seq<Message>)
    requires DbOk(db) && p in db.pending && p.msg.chat == chat && ReplayChat(db, chat, fate).status == Done
    ensures BySent(good) && forall m :: m in good <==> HeldReadable(db.pending, chat, m)
    ensures p.msg.mid in ReplayChat(db, chat, fate).dropped <==>
      !Readable(p) || exists i :: 0 <= i < |good| && good[i] == p.msg && Refuses(fate, i)
    ensures (forall s :: fate(s) == Accepted) && Readable(p) ==> p.msg in ReplayChat(db, chat, fate).moved
  {
    good := ReplayOutcome(db, chat, fate);
    ReplaySplits(db, chat, fate, p);
    assert (forall s :: fate(s) == Accepted) ==> forall i :: !Refuses(fate, i);
    hide ReplayChat, Refuses, Readable;
    OneRowOf(db.pending, chat, p);
    if p.msg in good {
      var i :| 0 <= i < |good| && good[i] == p.msg;
      forall j | 0 <= j < |good| && good[j] == p.msg ensures j == i { OnlyOnce(good, i, j); }
    }
  }

  lemma OneRowOf(pending: seq<Pending>, chat: int, p: Pending)
    requires PendingOk(pending) && p in pending && p.msg.chat == chat
    ensures HeldReadable(pending, chat, p.msg) <==> Readable(p)
  {
    hide Readable;
    if HeldReadable(pending, chat, p.msg) {
      var q :| q in pending && q.msg == p.msg && Readable(q);
      var i :| 0 <= i < |pending| && pending[i] == p;
      var j :| 0 <= j < |pending| && pending[j] == q;
      assert KeyOf(pending[i].msg) == KeyOf(pending[j].msg);
    }
  }

  lemma DroppedWasBuffered(db: Db, chat: int, fate: Fates, mid: int)
    requires DbOk(db) && mid in ReplayChat(db, chat, fate).dropped
    ensures ReplayChat(db, chat, fate).status == Done
    ensures exists p :: p in db.pending && KeyOf(p.msg) == Key(chat, mid)
  {
    var r, of := ReplayChat(db, chat, fate), OfChat(db.pending, chat);
    ReplayIsConserving(db, chat, fate);
    assert r.status == Done;
    WhereMeans(db.pending, (q: Pending) => q.msg.chat == chat);
    hide ReplayChat, OfChat, DbOk, Mids;
    assert mid in multiset(r.dropped);
    assert mid in multiset(PendingMids(of));
    var i :| 0 <= i < |of| && PendingMids(of)[i] == mid;
    assert of[i] in of;
  }

  lemma MovedWasBuffered(db: Db, chat: int, fate: Fates, m: Message)
    requires DbOk(db) && m in ReplayChat(db, chat, fate).moved
    ensures exists p :: p in db.pending && p.msg == m && m.chat == chat
  {
    var r, of := ReplayChat(db, chat, fate), OfChat(db.pending, chat);
    ReplayIsConserving(db, chat, fate);
    assert r.status == Done;
    WhereMeans(db.pending, (q: Pending) => q.msg.chat == chat);
    hide ReplayChat, OfChat, DbOk, Mids, PendingMids;
    var p :| p in of && p.msg == m;
  }

  /** Exactly the other chats' rows stay buffered, as they are. */
  lemma ReplayLeaves(db: Db, chat: int, fate: Fates, p: Pending)
    requires DbOk(db) && ReplayChat(db, chat, fate).status == Done
    ensures p in ReplayChat(db, chat, fate).tx.pending <==> p in db.pending && p.msg.chat != chat
  {
    var r := ReplayChat(db, chat, fate);
    ReplayIsConserving(db, chat, fate);
    WhereMeans(db.pending, (q: Pending) => q.msg.chat == p.msg.chat);
    WhereMeans(r.tx.pending, (q: Pending) => q.msg.chat == p.msg.chat);
    hide ReplayChat, DbOk, Mids, PendingMids, Where;
    assert p in db.pending <==> p in OfChat(db.pending, p.msg.chat);
    assert p in r.tx.pending <==> p in OfChat(r.tx.pending, p.msg.chat);
  }

  /** What is held of a message survives a replay, unless its row is dropped. */
  lemma ReplayKeepsCurrent(db: Db, chat: int, fate: Fates, k: Key)
    requires DbOk(db) && CurrentBody(db, k).Some?
    ensures var r := ReplayChat(db, chat, fate);
      || CurrentBody(r.tx, k) == CurrentBody(db, k)
      || (r.status == Done && k.chat == chat && k.mid in r.dropped
          && exists p :: p in db.pending && KeyOf(p.msg) == k && Some(p.msg.body) == CurrentBody(db, k))
  {
    var r := ReplayChat(db, chat, fate);
    ReplayIsConserving(db, chat, fate);
    if r.status == Done {
      forall p ensures p in r.tx.pending <==> p in db.pending && p.msg.chat != chat { ReplayLeaves(db, chat, fate, p); }
      forall m | m in r.moved ensures exists p :: p in db.pending && p.msg == m && m.chat == chat {
        MovedWasBuffered(db, chat, fate, m);
      }
      ApplyRowBody(db.rows, r.moved, k);
      LastBodyFrom(r.moved, k);
      PendingBodyFrom(db.pending, k);
      if PendingBody(db.pending, k).Some? {
        var p :| p in db.pending && KeyOf(p.msg) == k && p.msg.body == PendingBody(db.pending, k).value;
        if k.chat == chat {
          ReplaySplits(db, chat, fate, p);
          if p.msg in r.moved { MovedKeepsBody(db, r, k, p); }
        } else {
          PendingBodyOf(r.tx.pending, p);
        }
      } else {
        NotMoved(db, r, k);
      }
    }
  }

  lemma {:induction false} LastBodyFrom(msgs: seq<Message>, k: Key)
    ensures LastBody(msgs, k).Some? ==>
      exists m :: m in msgs && KeyOf(m) == k && m.body == LastBody(msgs, k).value
    ensures forall m :: m in msgs && KeyOf(m) == k ==> LastBody(msgs, k).Some?
  {
    if msgs != [] {
      var n := |msgs| - 1;
      LastBodyFrom(msgs[..n], k);
      assert msgs == msgs[..n] + [msgs[n]];
    }
  }

  lemma MovedKeepsBody(db: Db, r: Replay, k: Key, p: Pending)
    requires PendingOk(db.pending) && p in db.pending && KeyOf(p.msg) == k && p.msg in r.moved
    requires forall q :: q in r.tx.pending ==> q in db.pending && q.msg.chat != k.chat
    requires forall m :: m in r.moved ==> exists q :: q in db.pending && q.msg == m
    requires RowBody(r.tx.rows, k) == if LastBody(r.moved, k).Some? then LastBody(r.moved, k) else RowBody(db.rows, k)
    ensures CurrentBody(r.tx, k) == Some(p.msg.body)
  {
    NoPendingBody(r.tx.pending, k);
    LastBodyFrom(r.moved, k);
    var m :| m in r.moved && KeyOf(m) == k && m.body == LastBody(r.moved, k).value;
    var q :| q in db.pending && q.msg == m;
    PendingBodyOf(db.pending, q);
    PendingBodyOf(db.pending, p);
  }

  lemma NotMoved(db: Db, r: Replay, k: Key)
    requires PendingOk(db.pending) && PendingBody(db.pending, k).None?
    requires forall q :: q in r.tx.pending ==> q in db.pending
    requires forall m :: m in r.moved ==> exists q :: q in db.pending && q.msg == m
    requires RowBody(r.tx.rows, k) == if LastBody(r.moved, k).Some? then LastBody(r.moved, k) else RowBody(db.rows, k)
    ensures CurrentBody(r.tx, k) == CurrentBody(db, k)
  {
    forall q | q in db.pending ensures KeyOf(q.msg) != k { PendingBodyOf(db.pending, q); }
    NoPendingBody(r.tx.pending, k);
    LastBodyFrom(r.moved, k);
  }

  // ----- replaying every chat -----

  /** One chat's contribution, for the operator's log. */
  datatype Replayed = Replayed(chat: int, count: nat, dropped: seq<int>)

  /** The tables, everything moved so far, the contributions, and how it went. */
  datatype Drain = Drain(tx: Db, moved: seq<Message>, report: seq<Replayed>, status: Status)

  function Contribution(chat: int, r: Replay): seq<Replayed> {
    if r.moved == [] && r.dropped == [] then [] else [Replayed(chat, |r.moved|, r.dropped)]
  }

  /** The loop of ReplayPending over the chats, ending at the first that fails. */
  function ReplayLoop(db: Db, chats: seq<int>, replay: nat -> Fates): Drain {
    if chats == [] then Drain(db, [], [], Done)
    else
      var n := |chats| - 1;
      var before := ReplayLoop(db, chats[..n], replay);
      if before.status != Done then before
      else
        var r := ReplayChat(before.tx, chats[n], replay(n));
        if r.status != Done then before.(status := r.status)
        else Drain(r.tx, before.moved + r.moved, before.report + Contribution(chats[n], r), Done)
  }

  lemma LoopPush(db: Db, chats: seq<int>, chat: int, replay: nat -> Fates)
    ensures var before := ReplayLoop(db, chats, replay);
      ReplayLoop(db, chats + [chat], replay) ==
      if before.status != Done then before
      else
        var r := ReplayChat(before.tx, chat, replay(|chats|));
        if r.status != Done then before.(status := r.status)
        else Drain(r.tx, before.moved + r.moved, before.report + Contribution(chat, r), Done)
  {
    hide ReplayChat;
    assert (chats + [chat])[..|chats|] == chats;
  }

  lemma {:induction false} LoopStops(db: Db, chats: seq<int>, replay: nat -> Fates, i: nat)
    requires i <= |chats| && ReplayLoop(db, chats[..i], replay).status != Done
    ensures ReplayLoop(db, chats, replay) == ReplayLoop(db, chats[..i], replay)
  {
    hide ReplayChat;
    if i == |chats| {
      assert chats[..i] == chats;
    } else {
      var n := |chats| - 1;
      assert chats[..n][..i] == chats[..i];
      LoopStops(db, chats[..n], replay, i);
    }
  }

  /** ReplayPending: a failure returns no report, whatever was committed before it. */
  function ReplayPending(db: Db, chats: seq<int>, replay: nat -> Fates): Drain {
    var d := ReplayLoop(db, chats, replay);
    if d.status == Done then d else d.(report := [])
  }

  predicate Names(report: seq<Replayed>, k: Key) {
    exists i :: 0 <= i < |report| && report[i].chat == k.chat && k.mid in report[i].dropped
  }

  lemma NamesPush(report: seq<Replayed>, chat: int, r: Replay, k: Key)
    ensures Names(report + Contribution(chat, r), k) <==> Names(report, k) || (k.chat == chat && k.mid in r.dropped)
  {
    var all := report + Contribution(chat, r);
    if Names(report, k) {
      var i :| 0 <= i < |report| && report[i].chat == k.chat && k.mid in report[i].dropped;
      assert all[i] == report[i];
    }
    if k.chat == chat && k.mid in r.dropped {
      assert all[|report|] == Replayed(chat, |r.moved|, r.dropped);
    }
  }

  /** Nothing is buffered, moved or named twice. */
  ghost predicate Accounts(db: Db, d: Drain) {
    && (forall p :: p in d.tx.pending ==> p in db.pending)
    && (forall p :: p in db.pending ==> p in d.tx.pending || p.msg in d.moved || Names(d.report, KeyOf(p.msg)))
    && (forall p :: p in d.tx.pending ==> p.msg !in d.moved && !Names(d.report, KeyOf(p.msg)))
    && (forall m :: m in d.moved ==> !Names(d.report, KeyOf(m)) && exists p :: p in db.pending && p.msg == m)
    && (forall k :: Names(d.report, k) ==> exists p :: p in db.pending && KeyOf(p.msg) == k)
  }

  lemma AccountsStep(db: Db, before: Drain, chat: int, fate: Fates, after: Drain)
    requires DbOk(db) && DbOk(before.tx) && Accounts(db, before)
    requires var r := ReplayChat(before.tx, chat, fate);
      r.status == Done && after == Drain(r.tx, before.moved + r.moved, before.report + Contribution(chat, r), Done)
    ensures Accounts(db, after)
  {
    var tx, r := before.tx, ReplayChat(before.tx, chat, fate);
    forall k ensures Names(after.report, k) <==> Names(before.report, k) || (k.chat == chat && k.mid in r.dropped) {
      NamesPush(before.report, chat, r, k);
    }
    forall p ensures p in r.tx.pending <==> p in tx.pending && p.msg.chat != chat { ReplayLeaves(tx, chat, fate, p); }
    forall p | p in tx.pending && p.msg.chat == chat ensures p.msg in r.moved <==> p.msg.mid !in r.dropped {
      ReplaySplits(tx, chat, fate, p);
    }
    forall m | m in r.moved ensures exists p :: p in tx.pending && p.msg == m && m.chat == chat {
      MovedWasBuffered(tx, chat, fate, m);
    }
    forall mid | mid in r.dropped ensures exists p :: p in tx.pending && KeyOf(p.msg) == Key(chat, mid) {
      DroppedWasBuffered(tx, chat, fate, mid);
    }
    hide ReplayChat, Names, DbOk;
    AccountsMore(db, before, chat, r, after);
  }

  /** A chat's replay splits its rows among the moved and the named and leaves the others buffered. */
  lemma AccountsMore(db: Db, before: Drain, chat: int, r: Replay, after: Drain)
    requires PendingOk(db.pending) && Accounts(db, before)
    requires after.tx == r.tx && after.moved == before.moved + r.moved
    requires forall k :: Names(after.report, k) <==> Names(before.report, k) || (k.chat == chat && k.mid in r.dropped)
    requires forall p :: p in r.tx.pending <==> p in before.tx.pending && p.msg.chat != chat
    requires forall p :: p in before.tx.pending && p.msg.chat == chat ==>
      (p.msg in r.moved <==> p.msg.mid !in r.dropped)
    requires forall m :: m in r.moved ==> exists p :: p in before.tx.pending && p.msg == m && m.chat == chat
    requires forall mid :: mid in r.dropped ==> exists p :: p in before.tx.pending && KeyOf(p.msg) == Key(chat, mid)
    ensures Accounts(db, after)
  {
    hide PendingOk, Names;
    forall m, q | m in before.moved && q in before.tx.pending ensures KeyOf(m) != KeyOf(q.msg) {
      var p :| p in db.pending && p.msg == m;
      OnePending(db.pending, p, q);
    }
  }

  lemma OnePending(pending: seq<Pending>, p: Pending, q: Pending)
    requires PendingOk(pending) && p in pending && q in pending
    ensures KeyOf(p.msg) == KeyOf(q.msg) ==> p == q
  {
  }

  lemma {:induction false} LoopAccounts(db: Db, chats: seq<int>, replay: nat -> Fates)
    requires DbOk(db)
    ensures var d := ReplayLoop(db, chats, replay);
      DbOk(d.tx) && Accounts(db, d) && d.status != BadMessage
  {
    if chats != [] {
      var n := |chats| - 1;
      LoopAccounts(db, chats[..n], replay);
      var before := ReplayLoop(db, chats[..n], replay);
      ReplayIsConserving(before.tx, chats[n], replay(n));
      var r := ReplayChat(before.tx, chats[n], replay(n));
      if before.status == Done && r.status == Done {
        AccountsStep(db, before, chats[n], replay(n), ReplayLoop(db, chats, replay));
      }
    }
  }

  lemma {:induction false} LoopMoves(db: Db, chats: seq<int>, replay: nat -> Fates)
    requires DbOk(db)
    ensures var d := ReplayLoop(db, chats, replay);
      d.tx.rows == Apply(db.rows, d.moved) && d.tx.cursors == db.cursors
  {
    if chats != [] {
      var n := |chats| - 1;
      LoopMoves(db, chats[..n], replay);
      LoopAccounts(db, chats[..n], replay);
      var before := ReplayLoop(db, chats[..n], replay);
      var r := ReplayChat(before.tx, chats[n], replay(n));
      ReplayIsConserving(before.tx, chats[n], replay(n));
      ApplyConcat(db.rows, before.moved, r.moved);
      hide Apply, DbOk, ReplayChat, OfChat, Mids, PendingMids;
    }
  }

  lemma EmptiesOneMore(before: Db, chats: seq<int>, chat: int, fate: Fates)
    requires DbOk(before) && ReplayChat(before, chat, fate).status == Done
    requires forall p :: p in before.pending ==> p.msg.chat !in chats
    ensures forall p :: p in ReplayChat(before, chat, fate).tx.pending ==> p.msg.chat !in chats + [chat]
  {
    hide ReplayChat;
    forall p | p in ReplayChat(before, chat, fate).tx.pending ensures p.msg.chat !in chats + [chat] {
      ReplayLeaves(before, chat, fate, p);
    }
  }

  /** A drain that ends well leaves nothing of its chats buffered. */
  lemma {:induction false} LoopEmpties(db: Db, chats: seq<int>, replay: nat -> Fates)
    requires DbOk(db) && ReplayLoop(db, chats, replay).status == Done
    ensures forall p :: p in ReplayLoop(db, chats, replay).tx.pending ==> p.msg.chat !in chats
  {
    if chats != [] {
      hide ReplayChat, ReplayLoop, DbOk, Accounts;
      var front, c := chats[..|chats| - 1], chats[|chats| - 1];
      assert chats == front + [c];
      LoopPush(db, front, c, replay);
      LoopEmpties(db, front, replay);
      LoopAccounts(db, front, replay);
      EmptiesOneMore(ReplayLoop(db, front, replay).tx, front, c, replay(|front|));
    }
  }

  /** What is held of a message survives a drain, unless its row was dropped. */
  lemma {:induction false} LoopKeepsCurrent(db: Db, chats: seq<int>, replay: nat -> Fates, k: Key)
    requires DbOk(db) && CurrentBody(db, k).Some?
    ensures var d := ReplayLoop(db, chats, replay);
      || CurrentBody(d.tx, k) == CurrentBody(db, k)
      || (&& Names(d.report, k)
          && exists p :: p in db.pending && KeyOf(p.msg) == k && Some(p.msg.body) == CurrentBody(db, k))
  {
    if chats != [] {
      var n := |chats| - 1;
      LoopKeepsCurrent(db, chats[..n], replay, k);
      LoopAccounts(db, chats[..n], replay);
      var before := ReplayLoop(db, chats[..n], replay);
      var r := ReplayChat(before.tx, chats[n], replay(n));
      NamesPush(before.report, chats[n], r, k);
      if before.status == Done && CurrentBody(before.tx, k) == CurrentBody(db, k) {
        ReplayKeepsCurrent(before.tx, chats[n], replay(n), k);
      }
    }
  }

  // ----- when what was dropped is reported -----

  /** Everything that left the buffer is in messages or in the report that is returned. */
  ghost predicate AllReported(db: Db, d: Drain) {
    forall p :: p in db.pending && p !in d.tx.pending ==> p.msg in d.moved || Names(d.report, KeyOf(p.msg))
  }

  /** With these answers every chat's replay succeeds, or none before the first to fail drops anything. */
  predicate NothingUnreported(db: Db, chats: seq<int>, replay: nat -> Fates) {
    var d := ReplayLoop(db, chats, replay);
    d.status == Done || forall i :: 0 <= i < |d.report| ==> d.report[i].dropped == []
  }

  /**
   Answer by answer: a replay of many chats accounts for every row that left the buffer exactly when all
   of them succeed or no chat before the first to fail dropped anything, for the report of what was
   committed is lost with the error.
   */
  lemma ReportedIff(db: Db, chats: seq<int>, replay: nat -> Fates)
    requires DbOk(db)
    ensures AllReported(db, ReplayPending(db, chats, replay)) <==> NothingUnreported(db, chats, replay)
  {
    var d := ReplayLoop(db, chats, replay);
    LoopAccounts(db, chats, replay);
    hide ReplayLoop, DbOk;
    if d.status != Done {
      if i :| 0 <= i < |d.report| && d.report[i].dropped != [] {
        var k := Key(d.report[i].chat, d.report[i].dropped[0]);
        assert Names(d.report, k);
        var p :| p in db.pending && KeyOf(p.msg) == k;
        assert p !in d.tx.pending && p.msg !in d.moved && !Names([], k);
      }
    }
  }

  // ----- when a drain is sure to report -----

  function Front(chats: seq<int>): seq<int> {
    if chats == [] then [] else chats[..|chats| - 1]
  }

  /** Nothing is buffered for any chat but the last. */
  predicate OnlyLastBuffered(pending: seq<Pending>, chats: seq<int>) {
    forall p :: p in pending ==> p.msg.chat !in Front(chats)
  }

  /** A replay that finds nothing buffered leaves everything as it is. */
  lemma NothingToReplay(db: Db, chat: int, fate: Fates)
    requires forall p :: p in db.pending ==> p.msg.chat != chat
    ensures var r := ReplayChat(db, chat, fate);
      r.tx == db && r.moved == [] && r.dropped == []
  {
    WhereMeans(db.pending, (p: Pending) => p.msg.chat == chat);
    EmptyOrSome(OfChat(db.pending, chat));
    assert InOrder(db.pending, chat) == [];
  }

  lemma {:induction false} NothingToDrain(db: Db, chats: seq<int>, replay: nat -> Fates)
    requires forall p :: p in db.pending ==> p.msg.chat !in chats
    ensures var d := ReplayLoop(db, chats, replay);
      d.tx == db && d.moved == [] && d.report == []
  {
    if chats != [] {
      var front, c := Front(chats), chats[|chats| - 1];
      assert chats == front + [c];
      LoopPush(db, front, c, replay);
      NothingToDrain(db, front, replay);
      NothingToReplay(db, c, replay(|front|));
      hide ReplayLoop, ReplayChat;
    }
  }

  /** A database that is up and refuses every message. */
  function Refusing(s: Stmt): Fate { if s.Upsert? then Refused else Accepted }

  function Down(s: Stmt): Fate { Outage }

  function RefusingUntil(i: nat): nat -> Fates {
    j => if j < i then Refusing else Down
  }

  lemma {:induction false} RefusedRows(start: Replay, msgs: seq<Message>)
    requires start.status == Done
    ensures ReplayRows(start, msgs, Refusing).status == Done && ReplayRows(start, msgs, Refusing).moved == start.moved
  {
    if msgs != [] { RefusedRows(start, msgs[..|msgs| - 1]); }
  }

  lemma RefusedChat(db: Db, chat: int)
    ensures ReplayChat(db, chat, Refusing).status == Done && ReplayChat(db, chat, Refusing).moved == []
  {
    var buffered := InOrder(db.pending, chat);
    hide InOrder, Good, Bad, ReplayRows;
    RefusedRows(Replay(db, [], Bad(buffered), Done), Good(buffered));
  }

  /** Until the outage every chat is drained and nothing is moved. */
  lemma {:induction false} RefusedLoop(db: Db, chats: seq<int>, i: nat)
    requires |chats| <= i
    ensures var d := ReplayLoop(db, chats, RefusingUntil(i));
      d.status == Done && d.moved == []
  {
    hide ReplayChat;
    if chats != [] {
      var n := |chats| - 1;
      RefusedLoop(db, chats[..n], i);
      RefusedChat(ReplayLoop(db, chats[..n], RefusingUntil(i)).tx, chats[n]);
    }
  }

  lemma DownFails(db: Db, chats: seq<int>, i: nat)
    requires i < |chats|
    ensures var d := ReplayLoop(db, chats, RefusingUntil(i));
      && d.status == Failed
      && d.tx == ReplayLoop(db, chats[..i], RefusingUntil(i)).tx
      && d.moved == []
      && d.report == ReplayLoop(db, chats[..i], RefusingUntil(i)).report
  {
    hide ReplayLoop;
    var replay := RefusingUntil(i);
    RefusedLoop(db, chats[..i], i);
    assert ReplayChat(ReplayLoop(db, chats[..i], replay).tx, chats[i], Down) ==
      Replay(ReplayLoop(db, chats[..i], replay).tx, [], [], Failed);
    hide ReplayChat;
    assert chats[..i + 1] == chats[..i] + [chats[i]];
    LoopPush(db, chats[..i], chats[i], replay);
    LoopStops(db, chats, replay, i + 1);
  }

  /** A buffered row of any chat but the last can be dropped without a report. */
  lemma FrontCanGoUnreported(db: Db, chats: seq<int>, p: Pending, at: nat)
    requires DbOk(db) && p in db.pending && at < |chats| - 1 && chats[at] == p.msg.chat
    ensures !AllReported(db, ReplayPending(db, chats, RefusingUntil(at + 1)))
  {
    var i := at + 1;
    var replay := RefusingUntil(i);
    DownFails(db, chats, i);
    RefusedLoop(db, chats[..i], i);
    LoopEmpties(db, chats[..i], replay);
    hide ReplayLoop, DbOk;
    assert chats[..i][at] == p.msg.chat;
    assert p !in ReplayLoop(db, chats, replay).tx.pending;
    assert !Names([], KeyOf(p.msg));
  }

  /**
   A drain is sure to report everything that left the buffer, whatever the database answers, exactly when
   nothing is buffered for any chat but the last.
   */
  lemma SureToReportIff(db: Db, chats: seq<int>)
    requires DbOk(db)
    ensures (forall replay: nat -> Fates :: AllReported(db, ReplayPending(db, chats, replay))) <==>
      OnlyLastBuffered(db.pending, chats)
  {
    hide ReplayPending, AllReported, DbOk;
    if OnlyLastBuffered(db.pending, chats) {
      forall replay: nat -> Fates ensures AllReported(db, ReplayPending(db, chats, replay)) {
        OnlyLastReports(db, chats, replay);
        ReportedIff(db, chats, replay);
      }
    } else {
      var p :| p in db.pending && p.msg.chat in Front(chats);
      var at :| 0 <= at < |Front(chats)| && Front(chats)[at] == p.msg.chat;
      FrontCanGoUnreported(db, chats, p, at);
    }
  }

  lemma OnlyLastReports(db: Db, chats: seq<int>, replay: nat -> Fates)
    requires OnlyLastBuffered(db.pending, chats)
    ensures NothingUnreported(db, chats, replay)
  {
    if chats != [] {
      var c := chats[|chats| - 1];
      assert chats == Front(chats) + [c];
      NothingToDrain(db, Front(chats), replay);
      LoopPush(db, Front(chats), c, replay);
      hide ReplayLoop, ReplayChat;
    }
  }

  const WITNESS := Pending(Message(0, 1, 7, 0, Body(0, 0, false, 0, "hi", "")), "", "group", 0)

  const WITNESS_DB := Db([], map[], [WITNESS], map[])

  /** Chat 1's only row is refused by the index; chat 2 meets an outage. */
  function WitnessFates(n: nat): Fates {
    if n == 0 then (s => if s == Index(0) then Refused else Accepted) else (_ => Outage)
  }

  lemma OneBuffered(p: Pending)
    requires Decodable(p)
    ensures InOrder([p], p.msg.chat) == [p] && NotOfChat([p], p.msg.chat) == []
    ensures Good([p]) == [p.msg] && Bad([p]) == []
  {
    WhereOne(p, (q: Pending) => q.msg.chat == p.msg.chat);
    WhereOne(p, (q: Pending) => q.msg.chat != p.msg.chat);
    SortOne(p, (q: Pending) => Pos(q.msg.sent, q.msg.mid));
    hide Where, Sort, Decodable;
    assert [p][..0] == [];
    assert Good([]) == [] && Bad([]) == [];
  }

  lemma WitnessRefused()
    ensures ReplayOne(WITNESS_DB, WITNESS.msg, WitnessFates(0), 0) == (WITNESS_DB, BadMessage)
  {
  }

  lemma ReplayRowsOne(start: Replay, m: Message, fate: Fates)
    requires start.status == Done && ReplayOne(start.tx, m, fate, 0).1 == BadMessage
    ensures ReplayRows(start, [m], fate) ==
      Replay(ReplayOne(start.tx, m, fate, 0).0, start.moved, start.dropped + [m.mid], Done)
  {
    assert [m][..0] == [];
  }

  lemma WitnessReplay()
    ensures ReplayChat(WITNESS_DB, 1, WitnessFates(0)) == Replay(Db([], map[], [], map[]), [], [7], Done)
  {
    hide InOrder, Good, Bad, ReplayOne, ReplayRows, NotOfChat;
    OneBuffered(WITNESS);
    WitnessRefused();
    ReplayRowsOne(Replay(WITNESS_DB, [], [], Done), WITNESS.msg, WitnessFates(0));
  }

  /** The failing case: a dropped message is in neither table and in no report. */
  lemma DropsCanGoUnreported()
    ensures var d := ReplayPending(WITNESS_DB, [1, 2], WitnessFates);
      d.status == Failed && d.tx == Db([], map[], [], map[]) && d.moved == [] && d.report == []
  {
    WitnessReplay();
    LoopPush(WITNESS_DB, [], 1, WitnessFates);
    LoopPush(WITNESS_DB, [1], 2, WitnessFates);
    assert [] + [1] == [1] && [1] + [2] == [1, 2];
    var empty := Db([], map[], [], map[]);
    assert ReplayChat(empty, 2, WitnessFates(1)).status == Failed;
    hide ReplayChat;
  }

  // ----- the sweep -----

  function Fresh(pending: seq<Pending>, since: int): seq<Pending> {
    Where(pending, (p: Pending) => p.received >= since)
  }

  function TtlOr(ttl: int): int { if ttl == 0 then DEFAULT_PENDING_TTL else ttl }

  /** SweepPending: drops what was received longer than the ttl ago. */
  function Swept(db: Db, now: int, ttl: int, fate: Fates): (Db, Status) {
    if fate(Stmt.Sweep) != Accepted then (db, Failed)
    else (db.(pending := Fresh(db.pending, now - TtlOr(ttl))), Done)
  }

  /** A sweep takes exactly the rows received before the cutoff, two weeks ago unless told otherwise. */
  lemma SweptIff(db: Db, now: int, ttl: int, fate: Fates, p: Pending)
    ensures p in Swept(db, now, ttl, fate).0.pending <==>
      && p in db.pending
      && (fate(Stmt.Sweep) == Accepted ==> p.received >= now - (if ttl == 0 then 14 * 86400 else ttl))
    ensures Swept(db, now, ttl, fate).1 == Done <==> fate(Stmt.Sweep) == Accepted
  {
    WhereMeans(db.pending, (q: Pending) => q.received >= now - TtlOr(ttl));
  }

  // ----- what a report says -----

  function TotalMoved(report: seq<Replayed>): nat {
    if report == [] then 0 else TotalMoved(report[..|report| - 1]) + report[|report| - 1].count
  }

  lemma TotalPush(report: seq<Replayed>, chat: int, r: Replay)
    ensures TotalMoved(report + Contribution(chat, r)) == TotalMoved(report) + |r.moved|
  {
    var all := report + Contribution(chat, r);
    if Contribution(chat, r) == [] {
      assert all == report;
    } else {
      assert all[..|report|] == report;
    }
  }

  /** The counts of the drained chats add up to what was moved, and no chat is reported for nothing. */
  lemma {:induction false} ReportAddsUp(db: Db, chats: seq<int>, replay: nat -> Fates)
    ensures var d := ReplayLoop(db, chats, replay);
      && TotalMoved(d.report) == |d.moved|
      && forall e :: e in d.report ==> e.chat in chats && (e.count > 0 || e.dropped != [])
  {
    hide ReplayChat;
    if chats != [] {
      var n := |chats| - 1;
      var before := ReplayLoop(db, chats[..n], replay);
      ReportAddsUp(db, chats[..n], replay);
      assert chats == chats[..n] + [chats[n]];
      TotalPush(before.report, chats[n], ReplayChat(before.tx, chats[n], replay(n)));
    }
  }
}
