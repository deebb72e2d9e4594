/**
 The ingest loop over the store: the getUpdates offset, the retry counter and the per-message replay,
 against a queue that forgets what an offset confirmed and redelivers everything else.
 */
module Ingest {
  import opened Base
  import opened Tables
  import Buffer
  import Latest
  import Queries
  import Store

  const STORE_RETRIES: nat := 3

  // ----- updates -----

  /** `body` is None for a service message, which convert drops. */
  datatype Incoming = Incoming(
    chat: int, mid: int, sent: int, title: string, kind: string, migrated: bool, body: Option<Body>)

  /** `msg` is the new or edited message the update carries, None for anything else. */
  datatype Update = Update(id: int, msg: Option<Incoming>)

  datatype ChatRef = ChatRef(title: string, kind: string)

  datatype Record = Record(update: Update, msg: Message, unknown: Option<ChatRef>)

  predicate Bufferable(kind: string) { kind == "group" || kind == "supergroup" }

  /** What collect makes of one update: None when it is filtered out. */
  function RecordOf(u: Update, allow: set<int>): Option<Record> {
    if u.msg.None? || u.msg.value.migrated then None
    else
      var m := u.msg.value;
      var unknown := if m.chat in allow then None else Some(ChatRef(m.title, m.kind));
      if unknown.Some? && !Bufferable(m.kind) then None
      else if m.body.None? then None
      else Some(Record(u, Message(0, m.chat, m.mid, m.sent, m.body.value), unknown))
  }

  function Collected(updates: seq<Update>, allow: set<int>): seq<Record> {
    if updates == [] then []
    else
      var n := |updates| - 1;
      Collected(updates[..n], allow) +
      (match RecordOf(updates[n], allow) case None => [] case Some(r) => [r])
  }

  /**
   An update that holds nothing to store: no message, a chat that moved elsewhere, a service message, or a
   private or channel message of a chat outside the allowlist.
   */
  predicate NothingToStore(u: Update, allow: set<int>) {
    || u.msg.None?
    || u.msg.value.migrated
    || u.msg.value.body.None?
    || (u.msg.value.chat !in allow && u.msg.value.kind != "group" && u.msg.value.kind != "supergroup")
  }

  /** The record carries the update's message as it was sent, and its chat's identity when that is not allowed. */
  predicate Carried(r: Record, allow: set<int>) {
    && r.update.msg.Some? && r.update.msg.value.body.Some?
    && (var m := r.update.msg.value;
        && r.msg == Message(0, m.chat, m.mid, m.sent, m.body.value)
        && r.unknown == if m.chat in allow then None else Some(ChatRef(m.title, m.kind)))
  }

  lemma RecordIff(u: Update, allow: set<int>)
    ensures RecordOf(u, allow).None? <==> NothingToStore(u, allow)
    ensures RecordOf(u, allow).Some? ==>
      RecordOf(u, allow).value.update == u && Carried(RecordOf(u, allow).value, allow)
  {
  }

  function UpdatesOf(recs: seq<Record>): (r: seq<Update>)
    ensures |r| == |recs|
  {
    seq(|recs|, i requires 0 <= i < |recs| => recs[i].update)
  }

  /** collect keeps, in order, exactly the updates that hold something to store, each as it was sent. */
  lemma {:induction false} CollectedIff(updates: seq<Update>, allow: set<int>)
    ensures UpdatesOf(Collected(updates, allow)) == Queries.Where(updates, u => !NothingToStore(u, allow))
    ensures forall j :: 0 <= j < |Collected(updates, allow)| ==> Carried(Collected(updates, allow)[j], allow)
  {
    hide RecordOf, NothingToStore, Carried;
    if updates != [] {
      var n := |updates| - 1;
      CollectedIff(updates[..n], allow);
      RecordIff(updates[n], allow);
      WhereLast(updates, allow);
      var front, all := Collected(updates[..n], allow), Collected(updates, allow);
      if RecordOf(updates[n], allow).Some? {
        assert all == front + [RecordOf(updates[n], allow).value];
        assert UpdatesOf(all) == UpdatesOf(front) + [updates[n]];
      } else {
        assert all == front;
      }
    }
  }

  lemma WhereLast(updates: seq<Update>, allow: set<int>)
    requires updates != []
    ensures var n := |updates| - 1;
      var kept := Queries.Where(updates[..n], u => !NothingToStore(u, allow));
      Queries.Where(updates, u => !NothingToStore(u, allow)) ==
      if NothingToStore(updates[n], allow) then kept else kept + [updates[n]]
  {
    hide NothingToStore;
  }

  /** Chats outside the allowlist heard from, each announced once. */
  function Strangers(updates: seq<Update>, allow: set<int>): set<int> {
    set u | u in updates && u.msg.Some? && !u.msg.value.migrated && u.msg.value.chat !in allow :: u.msg.value.chat
  }

  /** A chat outside the allowlist sent something, if only a service message. */
  predicate HeardFrom(updates: seq<Update>, allow: set<int>, chat: int) {
    && chat !in allow
    && exists u :: u in updates && u.msg.Some? && !u.msg.value.migrated && u.msg.value.chat == chat
  }

  function PendingOf(r: Record, now: int): Pending
    requires r.unknown.Some?
  {
    Pending(r.msg, r.unknown.value.title, r.unknown.value.kind, now)
  }

  function Known(recs: seq<Record>): seq<Message> {
    if recs == [] then []
    else Known(recs[..|recs| - 1]) + (if recs[|recs| - 1].unknown.None? then [recs[|recs| - 1].msg] else [])
  }

  function Unknown(recs: seq<Record>, now: int): seq<Pending> {
    if recs == [] then []
    else
      Unknown(recs[..|recs| - 1], now) +
      (if recs[|recs| - 1].unknown.Some? then [PendingOf(recs[|recs| - 1], now)] else [])
  }

  // ----- writing a delivery -----

  /** The database's answers during one delivery: the two batches, then, `later`, each message's own write. */
  datatype Answers = Answers(pending: Fates, messages: Fates, later: int, single: nat -> Fates)

  /** persist: the buffered messages first, then the known ones, in two transactions. */
  function Persisted(db: Db, recs: seq<Record>, now: int, a: Answers): (Db, Status) {
    var (buffered, status) := Buffer.PendingBatch(db, Unknown(recs, now), a.pending);
    if status != Done then (buffered, status) else Batch(buffered, Known(recs), a.messages)
  }

  function Single(db: Db, r: Record, now: int, fate: Fates): (Db, Status) {
    if r.unknown.Some? then Buffer.PendingBatch(db, [PendingOf(r, now)], fate) else Batch(db, [r.msg], fate)
  }

  /** The tables, the updates logged as refused so far, and whether the replay is still going. */
  datatype Skipping = Skipping(db: Db, refused: set<int>, ok: bool)

  /** skipPoison */
  function Skipped(db: Db, recs: seq<Record>, now: int, single: nat -> Fates): Skipping {
    if recs == [] then Skipping(db, {}, true)
    else
      var n := |recs| - 1;
      var s := Skipped(db, recs[..n], now, single);
      if !s.ok then s
      else
        match Single(s.db, recs[n], now, single(n))
        case (after, Done) => s.(db := after)
        case (after, BadMessage) => Skipping(after, s.refused + {recs[n].update.id}, true)
        case (after, Failed) => Skipping(after, s.refused, false)
  }

  // ----- the loop -----

  /** The variables of Run. */
  datatype Loop = Loop(offset: int, failedFrom: int, storeFails: nat)

  /** The update was filtered by collect under this allowlist. */
  datatype Filtered = Filtered(id: int, allow: set<int>)

  /**
   What became of updates and buffered messages: filtered by collect, refused on their own write, named
   as dropped in a report ReplayPending returned, dropped by a chat's replay whose report was lost to a
   later chat's failure, or expired. `fails` lists the first update id of every failed delivery of this
   process.
   */
  datatype Ledger = Ledger(
    filtered: set<Filtered>, refused: set<int>,
    dropped: set<Message>, lost: set<Message>, expired: set<Message>,
    fails: seq<int>)

  datatype World = World(db: Db, confirmed: int, running: bool, allow: seq<int>, loop: Loop, ledger: Ledger)

  datatype Event =
    | PollFailed
    | Poll(n: nat, now: int, answers: Answers)
    | Sweep(now: int, ttl: int, fate: Fates)
    | Restart(allow: seq<int>, now: int, ttl: int, replay: nat -> Fates, sweep: Fates)

  const START := Loop(0, 0, 0)

  /** All updates Telegram will ever hand out, in order of id. */
  predicate QueueOk(queue: seq<Update>) {
    (forall i :: 0 <= i < |queue| ==> queue[i].id >= 0) &&
    forall i, j :: 0 <= i < j < |queue| ==> queue[i].id < queue[j].id
  }

  /** What is left of the queue from an update id on. */
  function From(queue: seq<Update>, id: int): seq<Update> {
    if queue == [] || queue[0].id >= id then queue else From(queue[1..], id)
  }

  /** A positive offset confirms everything below it; 0 asks for whatever is pending. */
  function Confirmed(w: World): int {
    if w.loop.offset > 0 then Max(w.confirmed, w.loop.offset) else w.confirmed
  }

  /** The delivery: some of what is pending, from the first on. */
  function Delivered(queue: seq<Update>, w: World, n: nat): seq<Update> {
    var pending := From(queue, Confirmed(w));
    if n <= |pending| then pending[..n] else pending
  }

  function FilteredOf(updates: seq<Update>, allow: set<int>): set<Filtered> {
    set u | u in updates && RecordOf(u, allow).None? :: Filtered(u.id, allow)
  }

  function AllowSet(allow: seq<int>): set<int> { set c | c in allow }

  /** One turn of Run with a successful poll. */
  function Polled(queue: seq<Update>, w: World, n: nat, now: int, a: Answers): World {
    var updates := Delivered(queue, w, n);
    var w := w.(confirmed := Confirmed(w));
    if updates == [] then w
    else
      var first, last := updates[0].id, updates[|updates| - 1].id;
      var recs := Collected(updates, AllowSet(w.allow));
      var passed := w.ledger.(filtered := w.ledger.filtered + FilteredOf(updates, AllowSet(w.allow)));
      var (db, status) := Persisted(w.db, recs, now, a);
      if status == Done then w.(db := db, loop := w.loop.(offset := last + 1), ledger := passed)
      else
        var fails := 1 + if w.loop.failedFrom == first then w.loop.storeFails else 0;
        var failed := w.ledger.(fails := w.ledger.fails + [first]);
        var stay := Loop(w.loop.offset, first, fails);
        if fails < STORE_RETRIES || status != BadMessage then w.(db := db, loop := stay, ledger := failed)
        else
          var s := Skipped(db, recs, a.later, a.single);
          if !s.ok then w.(db := s.db, loop := stay, ledger := failed.(refused := failed.refused + s.refused))
          else
            w.(db := s.db, loop := Loop(last + 1, first, 0),
               ledger := passed.(fails := failed.fails, refused := passed.refused + s.refused))
  }

  /** The buffered messages a report names as dropped. */
  function NamedIn(pending: seq<Pending>, report: seq<Buffer.Replayed>): set<Message> {
    set p | p in pending && Buffer.Names(report, KeyOf(p.msg)) :: p.msg
  }

  /** The replay of drainPending: only a report that is returned is logged; a failure stops the boot. */
  function DrainedWorld(w: World, replay: nat -> Fates): World {
    var d := Buffer.ReplayPending(w.db, w.allow, replay);
    if d.status == Done then
      w.(db := d.tx, ledger := w.ledger.(dropped := w.ledger.dropped + NamedIn(w.db.pending, d.report)))
    else
      var unreported := NamedIn(w.db.pending, Buffer.ReplayLoop(w.db, w.allow, replay).report);
      w.(db := d.tx, running := false, ledger := w.ledger.(lost := w.ledger.lost + unreported))
  }

  function SweptWorld(w: World, now: int, ttl: int, fate: Fates): World {
    var after := Buffer.Swept(w.db, now, ttl, fate).0;
    var gone := set p | p in w.db.pending && p !in after.pending :: p.msg;
    w.(db := after, ledger := w.ledger.(expired := w.ledger.expired + gone))
  }

  function Step(queue: seq<Update>, w: World, e: Event): World {
    match e
    case PollFailed => if w.running then w.(confirmed := Confirmed(w)) else w
    case Poll(n, now, a) => if w.running then Polled(queue, w, n, now, a) else w
    case Sweep(now, ttl, fate) => if w.running then SweptWorld(w, now, ttl, fate) else w
    case Restart(allow, now, ttl, replay, sweep) =>
      var booting := World(w.db, w.confirmed, true, allow, START, w.ledger.(fails := []));
      var drained := DrainedWorld(booting, replay);
      if !drained.running then drained
      else SweptWorld(drained, now, ttl, sweep).(running := Buffer.Swept(drained.db, now, ttl, sweep).1 == Done)
  }

  function After(queue: seq<Update>, w: World, events: seq<Event>): World {
    if events == [] then w else Step(queue, After(queue, w, events[..|events| - 1]), events[|events| - 1])
  }

  // ----- what a delivery says of each message -----

  /** The last of the records about a message, -1 when there is none. */
  function LastOf(recs: seq<Record>, k: Key): (j: int)
    ensures -1 <= j < |recs|
    ensures j >= 0 ==> KeyOf(recs[j].msg) == k
    ensures forall i :: j < i < |recs| ==> KeyOf(recs[i].msg) != k
  {
    if recs == [] then -1
    else if KeyOf(recs[|recs| - 1].msg) == k then |recs| - 1
    else LastOf(recs[..|recs| - 1], k)
  }

  function Said(recs: seq<Record>, k: Key): Option<Body> {
    var j := LastOf(recs, k);
    if j < 0 then None else Some(recs[j].msg.body)
  }

  /** Records are marked unknown exactly when their chat is not allowed. */
  ghost predicate Sorted(recs: seq<Record>, allow: set<int>) {
    forall i :: 0 <= i < |recs| ==> (recs[i].unknown.None? <==> recs[i].msg.chat in allow)
  }

  lemma {:induction false} KnownSays(recs: seq<Record>, allow: set<int>, k: Key)
    requires Sorted(recs, allow)
    ensures LastBody(Known(recs), k) == if k.chat in allow then Said(recs, k) else None
  {
    if recs != [] {
      var n := |recs| - 1;
      KnownSays(recs[..n], allow, k);
      if recs[n].unknown.None? {
        var before := Known(recs[..n]);
        assert (before + [recs[n].msg])[..|before|] == before;
      } else {
        assert Known(recs) == Known(recs[..n]);
      }
    }
  }

  lemma {:induction false} UnknownSays(recs: seq<Record>, now: int, allow: set<int>, k: Key)
    requires Sorted(recs, allow)
    ensures Buffer.LastPendingBody(Unknown(recs, now), k) == if k.chat in allow then None else Said(recs, k)
  {
    if recs != [] {
      var n := |recs| - 1;
      UnknownSays(recs[..n], now, allow, k);
      if recs[n].unknown.Some? {
        var before := Unknown(recs[..n], now);
        assert (before + [PendingOf(recs[n], now)])[..|before|] == before;
      } else {
        assert Unknown(recs, now) == Unknown(recs[..n], now);
      }
    }
  }

  /** No message of an allowed chat waits in the buffer. */
  ghost predicate NoneWaiting(db: Db, allow: set<int>) {
    forall p :: p in db.pending ==> p.msg.chat !in allow
  }

  lemma HeldOnly(pending: seq<Pending>, ps: seq<Pending>, p: Pending)
    requires PendingOk(pending) && p in Buffer.Hold(pending, ps)
    ensures p in pending || exists q :: q in ps && KeyOf(q.msg) == KeyOf(p.msg)
  {
    var after := Buffer.Hold(pending, ps);
    var i :| 0 <= i < |after| && after[i] == p;
    Buffer.HoldBodies(pending, ps, i);
    Buffer.LastPendingMentions(ps, KeyOf(p.msg));
    if p !in pending {
      var j :| 0 <= j < |ps| && KeyOf(ps[j].msg) == KeyOf(p.msg);
      assert ps[j] in ps;
    }
  }

  lemma {:induction false} UnknownIsStrange(recs: seq<Record>, now: int, allow: set<int>)
    requires Sorted(recs, allow)
    ensures forall q :: q in Unknown(recs, now) ==> q.msg.chat !in allow
  {
    if recs != [] { UnknownIsStrange(recs[..|recs| - 1], now, allow); }
  }

  /** What is held of a message once the records about it are `taken`. */
  function Updated(db: Db, recs: seq<Record>, k: Key, taken: bool): Option<Body> {
    if taken && Said(recs, k).Some? then Said(recs, k) else Buffer.CurrentBody(db, k)
  }

  /** What the buffering half of a delivery makes of each message. */
  lemma BufferedCurrent(db: Db, recs: seq<Record>, now: int, allow: set<int>, fate: Fates)
    requires DbOk(db) && NoneWaiting(db, allow) && Sorted(recs, allow)
    ensures var (after, status) := Buffer.PendingBatch(db, Unknown(recs, now), fate);
      && DbOk(after) && NoneWaiting(after, allow)
      && (status != Done ==> after == db)
      && (status == Done ==> forall k :: Buffer.CurrentBody(after, k) == Updated(db, recs, k, k.chat !in allow))
  {
    var ps := Unknown(recs, now);
    var (after, status) := Buffer.PendingBatch(db, ps, fate);
    Buffer.PendingBatchKeepsTables(db, ps, fate);
    if status == Done {
      UnknownIsStrange(recs, now, allow);
      forall p | p in after.pending ensures p.msg.chat !in allow { HeldOnly(db.pending, ps, p); }
      forall k ensures Buffer.CurrentBody(after, k) == Updated(db, recs, k, k.chat !in allow) {
        UnknownSays(recs, now, allow, k);
        Buffer.HoldPendingBody(db.pending, ps, k);
      }
    }
  }

  /** What the other half makes of each message. */
  lemma StoredCurrent(db: Db, recs: seq<Record>, allow: set<int>, fate: Fates)
    requires DbOk(db) && NoneWaiting(db, allow) && Sorted(recs, allow)
    ensures var (after, status) := Batch(db, Known(recs), fate);
      && DbOk(after) && NoneWaiting(after, allow)
      && (status != Done ==> after == db)
      && (status == Done ==> forall k :: Buffer.CurrentBody(after, k) == Updated(db, recs, k, k.chat in allow))
  {
    var msgs := Known(recs);
    var (after, status) := Batch(db, msgs, fate);
    BatchKeepsTables(db, msgs, fate);
    if status == Done {
      forall k ensures Buffer.CurrentBody(after, k) == Updated(db, recs, k, k.chat in allow) {
        KnownSays(recs, allow, k);
        ApplyRowBody(db.rows, msgs, k);
        if k.chat in allow { Buffer.NoPendingBody(db.pending, k); }
      }
    }
  }

  /** Each message is as it was or as some record says. */
  ghost predicate Wrote(db: Db, after: Db, recs: seq<Record>) {
    forall k :: Buffer.CurrentBody(after, k) == Buffer.CurrentBody(db, k) ||
      exists j :: 0 <= j < |recs| && Speaks(recs[j], k, Buffer.CurrentBody(after, k))
  }

  ghost predicate WroteOne(db: Db, after: Db, r: Record) {
    forall k :: Buffer.CurrentBody(after, k) == Buffer.CurrentBody(db, k) || Speaks(r, k, Buffer.CurrentBody(after, k))
  }

  predicate Speaks(r: Record, k: Key, b: Option<Body>) {
    KeyOf(r.msg) == k && b == Some(r.msg.body)
  }

  /** The record's message is as it says, or as a later record of the delivery says. */
  ghost predicate HasItsSay(after: Db, recs: seq<Record>, i: nat)
    requires i < |recs|
  {
    var k := KeyOf(recs[i].msg);
    exists j :: i <= j < |recs| && Speaks(recs[j], k, Buffer.CurrentBody(after, k))
  }

  lemma SaidIsSpoken(recs: seq<Record>, k: Key)
    ensures Said(recs, k).Some? ==> exists j :: 0 <= j < |recs| && Speaks(recs[j], k, Said(recs, k))
  {
    var j := LastOf(recs, k);
    if j >= 0 { assert Speaks(recs[j], k, Said(recs, k)); }
  }

  lemma SaidHasItsSay(after: Db, recs: seq<Record>, i: nat)
    requires i < |recs| && Buffer.CurrentBody(after, KeyOf(recs[i].msg)) == Said(recs, KeyOf(recs[i].msg))
    ensures HasItsSay(after, recs, i)
  {
    var k := KeyOf(recs[i].msg);
    assert Speaks(recs[LastOf(recs, k)], k, Said(recs, k));
  }

  /** A persisted delivery leaves every message as its last record says, a failed one contradicts none. */
  lemma PersistedWrites(db: Db, recs: seq<Record>, now: int, a: Answers, allow: set<int>)
    requires DbOk(db) && NoneWaiting(db, allow) && Sorted(recs, allow)
    ensures var (after, status) := Persisted(db, recs, now, a);
      && DbOk(after) && NoneWaiting(after, allow) && Wrote(db, after, recs)
      && (status == Done ==> forall i :: 0 <= i < |recs| ==> HasItsSay(after, recs, i))
  {
    var (buffered, first) := Buffer.PendingBatch(db, Unknown(recs, now), a.pending);
    var (after, status) := Persisted(db, recs, now, a);
    BufferedCurrent(db, recs, now, allow, a.pending);
    if first == Done { StoredCurrent(buffered, recs, allow, a.messages); }
    hide DbOk, NoneWaiting, Known, Unknown, Said, Speaks, Sorted, Buffer.CurrentBody, HasItsSay;
    forall k ensures Buffer.CurrentBody(after, k) == Buffer.CurrentBody(db, k) ||
      exists j :: 0 <= j < |recs| && Speaks(recs[j], k, Buffer.CurrentBody(after, k))
    {
      SaidIsSpoken(recs, k);
    }
    if status == Done {
      forall i | 0 <= i < |recs| ensures HasItsSay(after, recs, i) {
        SaidOf(recs, i);
        SaidHasItsSay(after, recs, i);
      }
    }
  }

  lemma SaidOf(recs: seq<Record>, i: nat)
    requires i < |recs|
    ensures Said(recs, KeyOf(recs[i].msg)).Some?
  {
  }

  lemma SingleWrites(db: Db, r: Record, now: int, fate: Fates, allow: set<int>)
    requires DbOk(db) && NoneWaiting(db, allow) && (r.unknown.None? <==> r.msg.chat in allow)
    ensures var (after, status) := Single(db, r, now, fate);
      && DbOk(after) && NoneWaiting(after, allow)
      && WroteOne(db, after, r)
      && (status == Done ==> Speaks(r, KeyOf(r.msg), Buffer.CurrentBody(after, KeyOf(r.msg))))
  {
    SingleLists(r, now);
    SingleSays(r);
    if r.unknown.Some? {
      BufferedCurrent(db, [r], now, allow, fate);
    } else {
      StoredCurrent(db, [r], allow, fate);
    }
    hide DbOk, NoneWaiting, Buffer.CurrentBody, Said, Known, Unknown, Batch, Buffer.PendingBatch;
  }

  lemma SingleSays(r: Record)
    ensures forall k :: Said([r], k) == if KeyOf(r.msg) == k then Some(r.msg.body) else None
  {
    assert [r][..0] == [];
  }

  lemma SingleLists(r: Record, now: int)
    ensures Known([r]) == if r.unknown.None? then [r.msg] else []
    ensures Unknown([r], now) == if r.unknown.Some? then [PendingOf(r, now)] else []
  {
    assert [r][..0] == [];
    assert Known([]) == [] && Unknown([], now) == [];
  }

  /** When the per-message replay ends, each record not logged as refused has had its say. */
  lemma {:induction false} SkippedWrites(db: Db, recs: seq<Record>, now: int, single: nat -> Fates, allow: set<int>)
    requires DbOk(db) && NoneWaiting(db, allow) && Sorted(recs, allow)
    ensures var s := Skipped(db, recs, now, single);
      && DbOk(s.db) && NoneWaiting(s.db, allow) && Wrote(db, s.db, recs)
      && (s.ok ==> forall i :: 0 <= i < |recs| ==> recs[i].update.id in s.refused || HasItsSay(s.db, recs, i))
  {
    if recs != [] {
      var n := |recs| - 1;
      var front, r := recs[..n], recs[n];
      SkippedWrites(db, front, now, single, allow);
      var before, s := Skipped(db, front, now, single), Skipped(db, recs, now, single);
      WroteMore(db, before.db, recs);
      if before.ok {
        SingleWrites(before.db, r, now, single(n), allow);
        hide DbOk, NoneWaiting, Single, Buffer.CurrentBody;
        WroteThen(db, before.db, s.db, recs);
        forall i | 0 <= i < |recs| && s.ok ensures recs[i].update.id in s.refused || HasItsSay(s.db, recs, i) {
          if i < n {
            assert front[i] == recs[i];
            if HasItsSay(before.db, front, i) { SayStays(before.db, s.db, recs, i); }
          } else if recs[i].update.id !in s.refused {
            assert Speaks(recs[n], KeyOf(r.msg), Buffer.CurrentBody(s.db, KeyOf(r.msg)));
          }
        }
      }
    }
  }

  /** What the environment says of the one row a record is written to. */
  predicate RowTaken(r: Record, fate: Fates) {
    if r.unknown.Some? then fate(Stmt.Buffer(0)) == Accepted else Takes(fate, 0)
  }

  predicate RowRefused(r: Record, fate: Fates) {
    if r.unknown.Some? then fate(Stmt.Buffer(0)) == Refused else Refuses(fate, 0)
  }

  /** A record's own write is done, rejected or failed by its own statements' answers. */
  lemma SingleOutcome(db: Db, r: Record, now: int, fate: Fates)
    ensures Single(db, r, now, fate).1 == Done <==>
      fate(Begin) == Accepted && fate(Commit) == Accepted && RowTaken(r, fate)
    ensures Single(db, r, now, fate).1 == BadMessage <==> fate(Begin) == Accepted && RowRefused(r, fate)
  {
    if r.unknown.Some? {
      Buffer.PendingBatchOutcome(db, [PendingOf(r, now)], fate);
    } else {
      BatchOutcome(db, [r.msg], fate);
      hide Batch, Takes, Refuses;
      assert AllTaken(fate, 1) <==> Takes(fate, 0);
      if Refuses(fate, 0) { assert AllTaken(fate, 0) && 0 <= 0 < 1; }
    }
  }

  /**
   The per-message replay runs to its end exactly when every record's own write is done or rejected for
   its row's sake, and then logs as refused exactly those rejected so.
   */
  lemma {:induction false} RefusedIff(db: Db, recs: seq<Record>, now: int, single: nat -> Fates)
    requires forall i, j :: 0 <= i < j < |recs| ==> recs[i].update.id < recs[j].update.id
    ensures var s := Skipped(db, recs, now, single);
      && (s.ok <==> forall i :: 0 <= i < |recs| ==>
        single(i)(Begin) == Accepted &&
        (RowRefused(recs[i], single(i)) || (RowTaken(recs[i], single(i)) && single(i)(Commit) == Accepted)))
      && (s.ok ==> forall i :: 0 <= i < |recs| ==>
        (recs[i].update.id in s.refused <==> RowRefused(recs[i], single(i))))
      && forall id :: id in s.refused ==> exists i :: 0 <= i < |recs| && recs[i].update.id == id
  {
    if recs != [] {
      var n := |recs| - 1;
      RefusedIff(db, recs[..n], now, single);
      var before := Skipped(db, recs[..n], now, single);
      SingleOutcome(before.db, recs[n], now, single(n));
      assert !(RowTaken(recs[n], single(n)) && RowRefused(recs[n], single(n)));
      hide Single, RowTaken, RowRefused;
    }
  }

  /**
   A persisted delivery puts each message where its chat belongs: an allowed chat's into messages, any
   other's into the buffer, where a message new to it is stamped with the time of the delivery and what its
   chat is called.
   */
  lemma PersistedPlaces(db: Db, recs: seq<Record>, now: int, a: Answers, j: nat)
    requires DbOk(db) && j < |recs| && Persisted(db, recs, now, a).1 == Done
    ensures var (after, _) := Persisted(db, recs, now, a);
      var (r, k) := (recs[j], KeyOf(recs[j].msg));
      && (r.unknown.None? ==> HasRow(after.rows, k))
      && (r.unknown.Some? ==> Buffer.HasPending(after.pending, k))
      && (r.unknown.Some? && !Buffer.HasPending(db.pending, k)
          && (forall i :: 0 <= i < j ==> KeyOf(recs[i].msg) != k) ==>
        exists p :: p in after.pending && KeyOf(p.msg) == k && p.msg.sent == r.msg.sent
          && p.title == r.unknown.value.title && p.kind == r.unknown.value.kind && p.received == now)
  {
    var ps, ms := Unknown(recs, now), Known(recs);
    var buffered := Buffer.PendingBatch(db, ps, a.pending).0;
    Buffer.PendingBatchKeepsTables(db, ps, a.pending);
    BatchKeepsTables(buffered, ms, a.messages);
    ApplyKeeps(buffered.rows, ms);
    if recs[j].unknown.None? {
      var i := KnownHas(recs, j);
      assert HasRow(Apply(buffered.rows, ms), KeyOf(ms[i]));
    } else {
      var i := UnknownHas(recs, now, j);
      Buffer.HoldStores(db.pending, ps, i);
      var k := KeyOf(recs[j].msg);
      if !Buffer.HasPending(db.pending, k) && (forall x :: 0 <= x < j ==> KeyOf(recs[x].msg) != k) {
        Buffer.HoldFirsts(db.pending, ps, i);
      }
    }
  }

  lemma {:induction false} KnownHas(recs: seq<Record>, j: nat) returns (i: nat)
    requires j < |recs| && recs[j].unknown.None?
    ensures i < |Known(recs)| && Known(recs)[i] == recs[j].msg
  {
    var n := |recs| - 1;
    if j < n { i := KnownHas(recs[..n], j); } else { i := |Known(recs[..n])|; }
  }

  predicate IsAmong(recs: seq<Record>, j: nat, k: Key)
    requires j <= |recs|
  {
    exists y :: 0 <= y < j && KeyOf(recs[y].msg) == k
  }

  lemma AmongMore(recs: seq<Record>, n: nat, j: nat, more: nat, k: Key)
    requires j <= n <= |recs| && j <= more <= |recs| && IsAmong(recs[..n], j, k)
    ensures IsAmong(recs, more, k)
  {
    var y :| 0 <= y < j && KeyOf(recs[..n][y].msg) == k;
    assert KeyOf(recs[y].msg) == k;
  }

  lemma {:induction false} UnknownHas(recs: seq<Record>, now: int, j: nat) returns (i: nat)
    requires j < |recs| && recs[j].unknown.Some?
    ensures i < |Unknown(recs, now)| && Unknown(recs, now)[i] == PendingOf(recs[j], now)
    ensures forall x :: 0 <= x < i ==> IsAmong(recs, j, KeyOf(Unknown(recs, now)[x].msg))
  {
    hide IsAmong;
    var n := |recs| - 1;
    var front := Unknown(recs[..n], now);
    if j < n {
      i := UnknownHas(recs[..n], now, j);
      forall x | 0 <= x < i ensures IsAmong(recs, j, KeyOf(Unknown(recs, now)[x].msg)) {
        AmongMore(recs, n, j, j, KeyOf(front[x].msg));
      }
    } else {
      i := |front|;
      UnknownKeys(recs[..n], now);
      forall x | 0 <= x < i ensures IsAmong(recs, j, KeyOf(Unknown(recs, now)[x].msg)) {
        AmongMore(recs, n, n, j, KeyOf(front[x].msg));
      }
    }
  }

  lemma {:induction false} UnknownKeys(recs: seq<Record>, now: int)
    ensures forall x :: 0 <= x < |Unknown(recs, now)| ==> IsAmong(recs, |recs|, KeyOf(Unknown(recs, now)[x].msg))
  {
    if recs != [] {
      var n := |recs| - 1;
      var front := Unknown(recs[..n], now);
      UnknownKeys(recs[..n], now);
      assert IsAmong(recs, |recs|, KeyOf(recs[n].msg));
      hide IsAmong;
      forall x | 0 <= x < |front| ensures IsAmong(recs, |recs|, KeyOf(front[x].msg)) {
        AmongMore(recs, n, n, |recs|, KeyOf(front[x].msg));
      }
    }
  }

  lemma WroteMore(db: Db, before: Db, recs: seq<Record>)
    requires recs != [] && Wrote(db, before, recs[..|recs| - 1])
    ensures Wrote(db, before, recs)
  {
    hide Buffer.CurrentBody, Speaks;
    var front := recs[..|recs| - 1];
    forall k | Buffer.CurrentBody(before, k) != Buffer.CurrentBody(db, k)
      ensures exists j :: 0 <= j < |recs| && Speaks(recs[j], k, Buffer.CurrentBody(before, k))
    {
      var j :| 0 <= j < |front| && Speaks(front[j], k, Buffer.CurrentBody(before, k));
      assert Speaks(recs[j], k, Buffer.CurrentBody(before, k));
    }
  }

  lemma WroteThen(db: Db, before: Db, after: Db, recs: seq<Record>)
    requires recs != [] && Wrote(db, before, recs)
    requires WroteOne(before, after, recs[|recs| - 1])
    ensures Wrote(db, after, recs)
  {
    hide Buffer.CurrentBody, Speaks;
  }

  lemma SayStays(before: Db, after: Db, recs: seq<Record>, i: nat)
    requires i < |recs| - 1 && HasItsSay(before, recs[..|recs| - 1], i)
    requires WroteOne(before, after, recs[|recs| - 1])
    ensures HasItsSay(after, recs, i)
  {
    hide Buffer.CurrentBody, Speaks;
    var front, k := recs[..|recs| - 1], KeyOf(recs[i].msg);
    var j :| i <= j < |front| && Speaks(front[j], k, Buffer.CurrentBody(before, k));
    if Buffer.CurrentBody(after, k) == Buffer.CurrentBody(before, k) {
      assert Speaks(recs[j], k, Buffer.CurrentBody(after, k));
    } else {
      assert Speaks(recs[|recs| - 1], k, Buffer.CurrentBody(after, k));
    }
  }

  // ----- the records of a delivery -----

  predicate InIdOrder(updates: seq<Update>) {
    forall i, j :: 0 <= i < j < |updates| ==> updates[i].id < updates[j].id
  }

  /** Each record comes from an update of the delivery, in order. */
  ghost predicate RecordsOf(recs: seq<Record>, updates: seq<Update>, allow: set<int>) {
    && (forall j :: 0 <= j < |recs| ==> recs[j].update in updates && RecordOf(recs[j].update, allow) == Some(recs[j]))
    && (forall i, j :: 0 <= i < j < |recs| ==> recs[i].update.id < recs[j].update.id)
  }

  function OneRecord(u: Update, allow: set<int>): seq<Record> {
    match RecordOf(u, allow)
    case None => []
    case Some(r) => [r]
  }

  lemma RecordsPush(recs: seq<Record>, updates: seq<Update>, u: Update, allow: set<int>)
    requires RecordsOf(recs, updates, allow) && Sorted(recs, allow)
    requires forall v :: v in updates ==> v.id < u.id
    ensures RecordsOf(recs + OneRecord(u, allow), updates + [u], allow) && Sorted(recs + OneRecord(u, allow), allow)
  {
    var r := RecordOf(u, allow);
    assert r.Some? ==> r.value.update == u && (r.value.unknown.None? <==> r.value.msg.chat in allow);
    hide RecordOf;
  }

  lemma {:induction false} CollectedMeans(updates: seq<Update>, allow: set<int>)
    requires InIdOrder(updates)
    ensures RecordsOf(Collected(updates, allow), updates, allow) && Sorted(Collected(updates, allow), allow)
    ensures forall u :: u in updates && RecordOf(u, allow).Some? ==>
      RecordOf(u, allow).value in Collected(updates, allow)
  {
    hide RecordOf, RecordsOf, Sorted;
    if updates == [] {
      NoRecords(allow);
    } else {
      var front, u := updates[..|updates| - 1], updates[|updates| - 1];
      CollectedMeans(front, allow);
      assert updates == front + [u];
      assert Collected(updates, allow) == Collected(front, allow) + OneRecord(u, allow);
      RecordsPush(Collected(front, allow), front, u, allow);
    }
  }

  lemma NoRecords(allow: set<int>)
    ensures RecordsOf(Collected([], allow), [], allow) && Sorted(Collected([], allow), allow)
  {
  }

  // ----- conservation -----

  function KeyOfUpdate(u: Update): Key
    requires u.msg.Some?
  {
    Key(u.msg.value.chat, u.msg.value.mid)
  }

  predicate Says(v: Update, k: Key, b: Body) {
    v.msg.Some? && KeyOfUpdate(v) == k && v.msg.value.body == Some(b)
  }

  /** `b` is what this update, or a later one about the same message, says. */
  ghost predicate Fresh(queue: seq<Update>, u: Update, b: Body)
    requires u.msg.Some?
  {
    exists i :: 0 <= i < |queue| && queue[i].id >= u.id && Says(queue[i], KeyOfUpdate(u), b)
  }

  /** Messages that left the buffer and are on record. */
  function OnRecord(l: Ledger): set<Message> { l.dropped + l.expired }

  function Departed(l: Ledger): set<Message> { OnRecord(l) + l.lost }

  /** The store holds the message no older than the update, or such a version of it has departed. */
  ghost predicate Traced(queue: seq<Update>, db: Db, gone: set<Message>, u: Update)
    requires u.msg.Some?
  {
    var held := Buffer.CurrentBody(db, KeyOfUpdate(u));
    || (held.Some? && Fresh(queue, u, held.value))
    || exists m :: m in gone && KeyOf(m) == KeyOfUpdate(u) && Fresh(queue, u, m.body)
  }

  /** Filtered under an allowlist that left it nothing to store. */
  ghost predicate WasFiltered(l: Ledger, u: Update) {
    exists f :: f in l.filtered && f.id == u.id && NothingToStore(u, f.allow)
  }

  ghost predicate Accounted(queue: seq<Update>, w: World, gone: set<Message>, u: Update) {
    || WasFiltered(w.ledger, u)
    || u.id in w.ledger.refused
    || (u.msg.Some? && Traced(queue, w.db, gone, u))
  }

  predicate Below(w: World, u: Update) {
    u.id < w.confirmed || u.id < w.loop.offset
  }

  ghost predicate Inv(queue: seq<Update>, w: World) {
    && DbOk(w.db)
    && (w.running ==> NoneWaiting(w.db, AllowSet(w.allow)))
    && forall i :: 0 <= i < |queue| && Below(w, queue[i]) ==> Accounted(queue, w, Departed(w.ledger), queue[i])
  }

  /** Everything held stays held as it is, or departs. */
  ghost predicate Carries(before: World, after: World) {
    && before.ledger.filtered <= after.ledger.filtered && before.ledger.refused <= after.ledger.refused
    && Departed(before.ledger) <= Departed(after.ledger)
    && forall k :: Buffer.CurrentBody(before.db, k).Some? ==>
      Buffer.CurrentBody(after.db, k) == Buffer.CurrentBody(before.db, k) ||
      DepartedAs(Departed(after.ledger), k, Buffer.CurrentBody(before.db, k))
  }

  ghost predicate DepartedAs(gone: set<Message>, k: Key, b: Option<Body>) {
    exists m :: m in gone && KeyOf(m) == k && Some(m.body) == b
  }

  lemma CarriesTrans(a: World, b: World, c: World)
    requires Carries(a, b) && Carries(b, c)
    ensures Carries(a, c)
  {
    hide Buffer.CurrentBody, Departed;
  }

  lemma CarriedStays(queue: seq<Update>, before: World, after: World, u: Update)
    requires Carries(before, after) && Accounted(queue, before, Departed(before.ledger), u)
    ensures Accounted(queue, after, Departed(after.ledger), u)
  {
    hide Buffer.CurrentBody, Departed, Fresh;
    if !WasFiltered(after.ledger, u) && u.id !in after.ledger.refused {
      var k := KeyOfUpdate(u);
      assert Traced(queue, before.db, Departed(before.ledger), u);
      if m :| m in Departed(before.ledger) && KeyOf(m) == k && Fresh(queue, u, m.body) {
        assert m in Departed(after.ledger);
      }
    }
  }

  // ----- drains and sweeps -----

  lemma DrainCarries(w: World, replay: nat -> Fates)
    requires DbOk(w.db)
    ensures var after := DrainedWorld(w, replay);
      && DbOk(after.db) && Carries(w, after)
      && (after.running ==> NoneWaiting(after.db, AllowSet(w.allow)))
  {
    var d := Buffer.ReplayLoop(w.db, w.allow, replay);
    var after := DrainedWorld(w, replay);
    Buffer.LoopAccounts(w.db, w.allow, replay);
    if d.status == Done { Buffer.LoopEmpties(w.db, w.allow, replay); }
    hide DbOk, Buffer.ReplayLoop, Buffer.CurrentBody, Buffer.Accounts;
    assert NamedIn(w.db.pending, d.report) <= Departed(after.ledger);
    forall k | Buffer.CurrentBody(w.db, k).Some?
      ensures Buffer.CurrentBody(after.db, k) == Buffer.CurrentBody(w.db, k) ||
        DepartedAs(Departed(after.ledger), k, Buffer.CurrentBody(w.db, k))
    {
      Buffer.LoopKeepsCurrent(w.db, w.allow, replay, k);
      if Buffer.CurrentBody(after.db, k) != Buffer.CurrentBody(w.db, k) {
        var p :| p in w.db.pending && KeyOf(p.msg) == k && Some(p.msg.body) == Buffer.CurrentBody(w.db, k);
        assert p.msg in NamedIn(w.db.pending, d.report);
      }
    }
  }

  lemma SweptPending(w: World, now: int, ttl: int, fate: Fates, p: Pending)
    ensures p in SweptWorld(w, now, ttl, fate).db.pending <==>
      p in w.db.pending && (fate(Stmt.Sweep) != Accepted || p.received >= now - Buffer.TtlOr(ttl))
  {
    Queries.WhereMeans(w.db.pending, (q: Pending) => q.received >= now - Buffer.TtlOr(ttl));
  }

  lemma SweepCarries(w: World, now: int, ttl: int, fate: Fates)
    requires DbOk(w.db)
    ensures var after := SweptWorld(w, now, ttl, fate);
      DbOk(after.db) && Carries(w, after) && forall p :: p in after.db.pending ==> p in w.db.pending
  {
    var after := SweptWorld(w, now, ttl, fate);
    Buffer.WherePending(w.db.pending, (p: Pending) => p.received >= now - Buffer.TtlOr(ttl));
    forall p ensures p in after.db.pending ==> p in w.db.pending { SweptPending(w, now, ttl, fate, p); }
    forall k | Buffer.CurrentBody(w.db, k).Some?
      ensures Buffer.CurrentBody(after.db, k) == Buffer.CurrentBody(w.db, k) ||
        DepartedAs(Departed(after.ledger), k, Buffer.CurrentBody(w.db, k))
    {
      SweepKeepsCurrent(w, after, k);
    }
  }

  lemma SweepKeepsCurrent(w: World, after: World, k: Key)
    requires PendingOk(w.db.pending) && PendingOk(after.db.pending) && after.db.rows == w.db.rows
    requires forall p :: p in after.db.pending ==> p in w.db.pending
    requires forall p :: p in w.db.pending && p !in after.db.pending ==> p.msg in after.ledger.expired
    requires Buffer.CurrentBody(w.db, k).Some?
    ensures Buffer.CurrentBody(after.db, k) == Buffer.CurrentBody(w.db, k) ||
      DepartedAs(Departed(after.ledger), k, Buffer.CurrentBody(w.db, k))
  {
    Buffer.PendingBodyFrom(w.db.pending, k);
    if Buffer.PendingBody(w.db.pending, k).Some? {
      var p :| p in w.db.pending && KeyOf(p.msg) == k && p.msg.body == Buffer.PendingBody(w.db.pending, k).value;
      if p in after.db.pending {
        Buffer.PendingBodyOf(after.db.pending, p);
      } else {
        assert p.msg in Departed(after.ledger);
      }
    } else {
      forall q | q in after.db.pending ensures KeyOf(q.msg) != k { Buffer.PendingBodyOf(w.db.pending, q); }
      Buffer.NoPendingBody(after.db.pending, k);
    }
  }

  /** A restart forgets the loop's variables and the failures of the last process, nothing else. */
  lemma RestartKeeps(queue: seq<Update>, w: World, e: Event)
    requires QueueOk(queue) && Inv(queue, w) && e.Restart?
    ensures Inv(queue, Step(queue, w, e)) && Carries(w, Step(queue, w, e))
  {
    var booting := World(w.db, w.confirmed, true, e.allow, START, w.ledger.(fails := []));
    var drained := DrainedWorld(booting, e.replay);
    DrainCarries(booting, e.replay);
    assert Carries(w, drained);
    if drained.running {
      SweepCarries(drained, e.now, e.ttl, e.sweep);
      CarriesTrans(w, drained, SweptWorld(drained, e.now, e.ttl, e.sweep));
    }
    var after := Step(queue, w, e);
    hide DrainedWorld, SweptWorld, DbOk, Accounted, Departed, Buffer.CurrentBody;
    assert DbOk(after.db) && Carries(w, after) && after.confirmed == w.confirmed && after.loop.offset == 0;
    forall i | 0 <= i < |queue| && Below(after, queue[i])
      ensures Accounted(queue, after, Departed(after.ledger), queue[i])
    {
      CarriedStays(queue, w, after, queue[i]);
    }
  }

  // ----- deliveries -----

  lemma {:induction false} FromIsSuffix(queue: seq<Update>, id: int) returns (k: nat)
    requires QueueOk(queue)
    ensures k <= |queue| && From(queue, id) == queue[k..]
    ensures forall i :: 0 <= i < |queue| ==> (i < k <==> queue[i].id < id)
  {
    if queue == [] || queue[0].id >= id {
      k := 0;
    } else {
      var tail := queue[1..];
      var j := FromIsSuffix(tail, id);
      k := j + 1;
      assert tail[j..] == queue[k..];
      forall i | 0 <= i < |queue| ensures i < k <==> queue[i].id < id {
        if i > 0 { assert tail[i - 1] == queue[i]; }
      }
    }
  }

  /** Updates up to the last delivered were confirmed before or are in the delivery. */
  lemma DeliveredCovers(queue: seq<Update>, w: World, n: nat, i: nat)
    requires QueueOk(queue) && i < |queue|
    requires var updates := Delivered(queue, w, n);
      updates != [] && queue[i].id <= updates[|updates| - 1].id
    ensures queue[i].id < Confirmed(w) || queue[i] in Delivered(queue, w, n)
  {
    var updates := Delivered(queue, w, n);
    var k := FromIsSuffix(queue, Confirmed(w));
    assert updates[|updates| - 1] == queue[k + |updates| - 1];
    if i >= k {
      assert i <= k + |updates| - 1;
      assert updates[i - k] == queue[i];
    }
  }

  /** A delivery starts at the confirmed mark or later and is in order. */
  lemma DeliveredFrom(queue: seq<Update>, w: World, n: nat, j: nat)
    requires QueueOk(queue) && j < |Delivered(queue, w, n)|
    ensures var updates := Delivered(queue, w, n);
      Confirmed(w) <= updates[0].id <= updates[j].id <= updates[|updates| - 1].id
  {
    var updates := Delivered(queue, w, n);
    var k := FromIsSuffix(queue, Confirmed(w));
    assert updates[0] == queue[k] && updates[j] == queue[k + j] && updates[|updates| - 1] == queue[k + |updates| - 1];
  }

  lemma DeliveredInOrder(queue: seq<Update>, w: World, n: nat)
    requires QueueOk(queue)
    ensures InIdOrder(Delivered(queue, w, n))
    ensures forall u :: u in Delivered(queue, w, n) ==> u in queue && u.id >= Confirmed(w)
  {
    var updates := Delivered(queue, w, n);
    var k := FromIsSuffix(queue, Confirmed(w));
    assert forall j :: 0 <= j < |updates| ==> updates[j] == queue[k + j];
  }

  /** Records of updates that are all in the queue and not below `low`. */
  ghost predicate RecordsFrom(queue: seq<Update>, recs: seq<Record>, low: int) {
    forall j :: 0 <= j < |recs| ==>
      && recs[j].update in queue && recs[j].update.id >= low
      && Says(recs[j].update, KeyOf(recs[j].msg), recs[j].msg.body)
  }

  lemma RecordsFromDelivery(queue: seq<Update>, updates: seq<Update>, recs: seq<Record>, allow: set<int>, low: int)
    requires RecordsOf(recs, updates, allow) && forall u :: u in updates ==> u in queue && u.id >= low
    ensures RecordsFrom(queue, recs, low)
  {
  }

  lemma SpokenIsFresh(queue: seq<Update>, u: Update, v: Update, b: Body)
    requires u.msg.Some? && v in queue && v.id >= u.id && Says(v, KeyOfUpdate(u), b)
    ensures Fresh(queue, u, b)
  {
    var i :| 0 <= i < |queue| && queue[i] == v;
    assert Says(queue[i], KeyOfUpdate(u), b);
  }

  /** What a delivery writes is newer than everything accounted for before it. */
  lemma WrittenStays(queue: seq<Update>, w: World, after: World, recs: seq<Record>, u: Update)
    requires Accounted(queue, w, Departed(w.ledger), u) && Departed(after.ledger) == Departed(w.ledger)
    requires w.ledger.filtered <= after.ledger.filtered && w.ledger.refused <= after.ledger.refused
    requires Wrote(w.db, after.db, recs) && RecordsFrom(queue, recs, u.id)
    ensures Accounted(queue, after, Departed(after.ledger), u)
  {
    hide Buffer.CurrentBody, Departed, Says, Fresh;
    if !WasFiltered(after.ledger, u) && u.id !in after.ledger.refused {
      var k := KeyOfUpdate(u);
      if Buffer.CurrentBody(after.db, k) != Buffer.CurrentBody(w.db, k) {
        var j :| 0 <= j < |recs| && Speaks(recs[j], k, Buffer.CurrentBody(after.db, k));
        SpokenIsFresh(queue, u, recs[j].update, recs[j].msg.body);
      }
    }
  }

  /** A record that had its say accounts for its update. */
  lemma SaidIsAccounted(queue: seq<Update>, after: World, gone: set<Message>, recs: seq<Record>, i: nat, low: int)
    requires i < |recs| && HasItsSay(after.db, recs, i) && RecordsFrom(queue, recs, low)
    requires forall a, b :: 0 <= a < b < |recs| ==> recs[a].update.id < recs[b].update.id
    ensures Accounted(queue, after, gone, recs[i].update)
  {
    hide Buffer.CurrentBody, Fresh;
    var u, k := recs[i].update, KeyOf(recs[i].msg);
    var j :| i <= j < |recs| && Speaks(recs[j], k, Buffer.CurrentBody(after.db, k));
    SpokenIsFresh(queue, u, recs[j].update, recs[j].msg.body);
  }

  /** Each update of a delivery is filtered, refused, or has had its say. */
  ghost predicate Settled(updates: seq<Update>, allow: set<int>, db: Db, recs: seq<Record>, refused: set<int>) {
    && recs == Collected(updates, allow)
    && forall i :: 0 <= i < |recs| ==> recs[i].update.id in refused || HasItsSay(db, recs, i)
  }

  /** The offset may pass a delivery that has settled. */
  lemma PassKeeps(queue: seq<Update>, w: World, n: nat, after: World, recs: seq<Record>)
    requires QueueOk(queue) && Inv(queue, w) && Delivered(queue, w, n) != []
    requires DbOk(after.db) && NoneWaiting(after.db, AllowSet(w.allow)) && after.allow == w.allow
    requires Departed(after.ledger) == Departed(w.ledger) && w.ledger.filtered <= after.ledger.filtered
    requires w.ledger.refused <= after.ledger.refused && Wrote(w.db, after.db, recs)
    requires after.confirmed == Confirmed(w)
    requires var updates := Delivered(queue, w, n);
      && after.loop.offset == updates[|updates| - 1].id + 1
      && Settled(updates, AllowSet(w.allow), after.db, recs, after.ledger.refused)
      && FilteredOf(updates, AllowSet(w.allow)) <= after.ledger.filtered
    ensures Inv(queue, after)
  {
    var updates, allow := Delivered(queue, w, n), AllowSet(w.allow);
    DeliveredInOrder(queue, w, n);
    DeliveredFrom(queue, w, n, 0);
    CollectedMeans(updates, allow);
    RecordsFromDelivery(queue, updates, recs, allow, Confirmed(w));
    forall i | 0 <= i < |queue| && Below(after, queue[i])
      ensures Accounted(queue, after, Departed(after.ledger), queue[i])
    {
      if queue[i].id < Confirmed(w) {
        LowRecords(queue, recs, queue[i].id, Confirmed(w));
        BelowConfirmed(queue, w, i);
        WrittenStays(queue, w, after, recs, queue[i]);
      } else {
        DeliveredCovers(queue, w, n, i);
        DeliveredAccounted(queue, updates, allow, after, recs, queue[i], Confirmed(w));
      }
    }
  }

  lemma LowRecords(queue: seq<Update>, recs: seq<Record>, lower: int, low: int)
    requires RecordsFrom(queue, recs, low) && lower <= low
    ensures RecordsFrom(queue, recs, lower)
  {
  }

  lemma BelowConfirmed(queue: seq<Update>, w: World, i: nat)
    requires QueueOk(queue) && i < |queue|
    ensures Below(w, queue[i]) <==> queue[i].id < Confirmed(w)
  {
  }

  lemma DeliveredAccounted(
      queue: seq<Update>, updates: seq<Update>, allow: set<int>, after: World, recs: seq<Record>, u: Update,
      low: int)
    requires u in updates && RecordsOf(recs, updates, allow) && RecordsFrom(queue, recs, low)
    requires Settled(updates, allow, after.db, recs, after.ledger.refused)
    requires RecordOf(u, allow).Some? ==> RecordOf(u, allow).value in recs
    requires FilteredOf(updates, allow) <= after.ledger.filtered
    ensures Accounted(queue, after, Departed(after.ledger), u)
  {
    if RecordOf(u, allow).Some? {
      var r := RecordOf(u, allow).value;
      var i :| 0 <= i < |recs| && recs[i] == r;
      assert r.update == u;
      if u.id !in after.ledger.refused { SaidIsAccounted(queue, after, Departed(after.ledger), recs, i, low); }
    } else {
      RecordIff(u, allow);
      assert Filtered(u.id, allow) in FilteredOf(updates, allow);
    }
  }

  /** The offset stays: nothing new is claimed. */
  lemma StayKeeps(queue: seq<Update>, w: World, after: World, recs: seq<Record>)
    requires QueueOk(queue) && Inv(queue, w) && RecordsFrom(queue, recs, Confirmed(w))
    requires DbOk(after.db) && (after.running ==> NoneWaiting(after.db, AllowSet(after.allow)))
    requires Departed(after.ledger) == Departed(w.ledger) && w.ledger.filtered <= after.ledger.filtered
    requires w.ledger.refused <= after.ledger.refused && Wrote(w.db, after.db, recs)
    requires after.confirmed == Confirmed(w) && after.loop.offset == w.loop.offset
    ensures Inv(queue, after)
  {
    hide DbOk, NoneWaiting, Wrote, RecordsFrom, Departed, Accounted, Confirmed;
    forall i | 0 <= i < |queue| && Below(after, queue[i])
      ensures Accounted(queue, after, Departed(after.ledger), queue[i])
    {
      BelowConfirmed(queue, w, i);
      LowRecords(queue, recs, queue[i].id, Confirmed(w));
      WrittenStays(queue, w, after, recs, queue[i]);
    }
  }

  lemma WroteTwice(a: Db, b: Db, c: Db, recs: seq<Record>)
    requires Wrote(a, b, recs) && Wrote(b, c, recs)
    ensures Wrote(a, c, recs)
  {
    hide Buffer.CurrentBody, Speaks;
  }

  /** The ways a poll with updates can end: the delivery passes, or the offset stays. */
  ghost predicate PollEnds(w: World, updates: seq<Update>, db: Db, status: Status, s: Skipping, after: World) {
    && after.allow == w.allow && after.running == w.running && after.confirmed == Confirmed(w)
    && Departed(after.ledger) == Departed(w.ledger)
    && w.ledger.filtered <= after.ledger.filtered && w.ledger.refused <= after.ledger.refused
    && (|| (updates == [] && after.db == w.db && after.loop.offset == w.loop.offset)
        || (after.db in {db, s.db} && after.loop.offset == w.loop.offset)
        || (&& updates != [] && after.loop.offset == updates[|updates| - 1].id + 1
            && FilteredOf(updates, AllowSet(w.allow)) <= after.ledger.filtered
            && ((status == Done && after.db == db) || (s.ok && after.db == s.db && s.refused <= after.ledger.refused))))
  }

  lemma PollEndsSo(queue: seq<Update>, w: World, n: nat, now: int, a: Answers)
    ensures var updates := Delivered(queue, w, n);
      var recs := Collected(updates, AllowSet(w.allow));
      var (db, status) := Persisted(w.db, recs, now, a);
      PollEnds(w, updates, db, status, Skipped(db, recs, a.later, a.single), Polled(queue, w, n, now, a))
  {
    hide Persisted, Skipped, Collected, Delivered, AllowSet, FilteredOf, Confirmed;
  }

  /** A poll, whatever the database answers. */
  lemma PolledKeeps(queue: seq<Update>, w: World, n: nat, now: int, a: Answers)
    requires QueueOk(queue) && Inv(queue, w) && w.running
    ensures Inv(queue, Polled(queue, w, n, now, a))
  {
    var updates, allow := Delivered(queue, w, n), AllowSet(w.allow);
    var after, recs := Polled(queue, w, n, now, a), Collected(updates, allow);
    var (db, status) := Persisted(w.db, recs, now, a);
    var s := Skipped(db, recs, a.later, a.single);
    DeliveredInOrder(queue, w, n);
    CollectedMeans(updates, allow);
    RecordsFromDelivery(queue, updates, recs, allow, Confirmed(w));
    PollEndsSo(queue, w, n, now, a);
    assert DbOk(w.db) && NoneWaiting(w.db, allow);
    hide Persisted, Skipped, Polled, Delivered, AllowSet, Inv, DbOk, NoneWaiting, RecordsFrom,
      HasItsSay, Sorted, RecordsOf, InIdOrder, RecordOf, QueueOk, Departed, Confirmed, FilteredOf;
    PersistedWrites(w.db, recs, now, a, allow);
    SkippedWrites(db, recs, a.later, a.single, allow);
    WroteTwice(w.db, db, s.db, recs);
    assert Wrote(w.db, w.db, recs);
    hide Wrote, Collected;
    if after.loop.offset == w.loop.offset && (after.db == w.db || after.db == db || after.db == s.db) {
      StayKeeps(queue, w, after, recs);
    } else {
      PassKeeps(queue, w, n, after, recs);
    }
  }

  // ----- whole runs -----

  lemma StepKeeps(queue: seq<Update>, w: World, e: Event)
    requires QueueOk(queue) && Inv(queue, w)
    ensures Inv(queue, Step(queue, w, e))
  {
    var after := Step(queue, w, e);
    match e {
      case PollFailed =>
        hide DbOk, NoneWaiting;
        if w.running {
          assert Wrote(w.db, after.db, []);
          StayKeeps(queue, w, after, []);
        }
      case Poll(n, now, a) =>
        hide Polled, Inv;
        if w.running { PolledKeeps(queue, w, n, now, a); }
      case Sweep(now, ttl, fate) =>
        if w.running {
          SweepCarries(w, now, ttl, fate);
          hide SweptWorld, DbOk, Accounted, Departed, Buffer.CurrentBody;
          forall i | 0 <= i < |queue| && Below(after, queue[i])
            ensures Accounted(queue, after, Departed(after.ledger), queue[i])
          {
            CarriedStays(queue, w, after, queue[i]);
          }
        }
      case Restart(_, _, _, _, _) =>
        RestartKeeps(queue, w, e);
    }
  }

  /** A first start: empty tables, nothing confirmed, nothing on record. */
  predicate IsFirstStart(w: World) {
    && w.db == Db([], map[], [], map[])
    && w.confirmed == 0 && w.loop == START && w.ledger == Ledger({}, {}, {}, {}, {}, [])
  }

  lemma {:induction false} RunKeeps(queue: seq<Update>, w: World, events: seq<Event>)
    requires QueueOk(queue) && Inv(queue, w)
    ensures Inv(queue, After(queue, w, events))
  {
    hide Step, Inv;
    if events != [] {
      RunKeeps(queue, w, events[..|events| - 1]);
      StepKeeps(queue, After(queue, w, events[..|events| - 1]), events[|events| - 1]);
    }
  }

  lemma FirstStartInv(queue: seq<Update>, start: World)
    requires QueueOk(queue) && IsFirstStart(start)
    ensures Inv(queue, start)
  {
  }

  /** The allowlist of the start of the run or of one of its restarts. */
  ghost predicate InForce(start: World, events: seq<Event>, allow: set<int>) {
    || Lists(start.allow, allow)
    || exists i :: 0 <= i < |events| && events[i].Restart? && Lists(events[i].allow, allow)
  }

  ghost predicate Lists(chats: seq<int>, allow: set<int>) {
    forall c :: c in allow <==> c in chats
  }

  lemma InForceMore(start: World, events: seq<Event>, allow: set<int>)
    requires events != [] && InForce(start, events[..|events| - 1], allow)
    ensures InForce(start, events, allow)
  {
    var front := events[..|events| - 1];
    hide Lists;
    if !Lists(start.allow, allow) {
      var i :| 0 <= i < |front| && front[i].Restart? && Lists(front[i].allow, allow);
      assert events[i].Restart?;
    }
  }

  /** A step filters nothing but under the allowlist it runs with, and only a restart changes that. */
  lemma StepFilters(queue: seq<Update>, w: World, e: Event)
    ensures Step(queue, w, e).allow == if e.Restart? then e.allow else w.allow
    ensures forall f :: f in Step(queue, w, e).ledger.filtered ==>
      f in w.ledger.filtered || f.allow == AllowSet(w.allow)
  {
    hide Persisted, Skipped, Collected, Delivered, Confirmed, AllowSet, Buffer.ReplayLoop, Buffer.Swept;
    assert forall updates, f :: f in FilteredOf(updates, AllowSet(w.allow)) ==> f.allow == AllowSet(w.allow);
  }

  lemma {:induction false} FilteredInForce(queue: seq<Update>, start: World, events: seq<Event>)
    requires start.ledger.filtered == {}
    ensures InForce(start, events, AllowSet(After(queue, start, events).allow))
    ensures forall f :: f in After(queue, start, events).ledger.filtered ==> InForce(start, events, f.allow)
  {
    hide Step;
    if events != [] {
      var n := |events| - 1;
      var w := After(queue, start, events[..n]);
      FilteredInForce(queue, start, events[..n]);
      StepFilters(queue, w, events[n]);
      hide InForce;
      InForceMore(start, events, AllowSet(w.allow));
      forall f | f in w.ledger.filtered ensures InForce(start, events, f.allow) { InForceMore(start, events, f.allow); }
      if events[n].Restart? { RestartInForce(start, events); }
    }
  }

  lemma RestartInForce(start: World, events: seq<Event>)
    requires events != [] && events[|events| - 1].Restart?
    ensures InForce(start, events, AllowSet(events[|events| - 1].allow))
  {
  }

  /**
   Conservation over whole runs: whatever polls, redeliveries, refused rows, outages, sweeps and restarts
   happen, every update below the offset or below Telegram's confirmed mark had nothing to store under an
   allowlist of the run, was refused on its own write, or the store holds its message as this update or a
   later one left it, or such a version of it departed from the buffer. The index agrees with the table
   throughout.
   */
  lemma NothingConfirmedIsLost(queue: seq<Update>, start: World, events: seq<Event>)
    requires QueueOk(queue) && IsFirstStart(start)
    ensures var w := After(queue, start, events);
      && DbOk(w.db) && (forall f :: f in w.ledger.filtered ==> InForce(start, events, f.allow))
      && (forall i :: 0 <= i < |queue| && Below(w, queue[i]) ==> Accounted(queue, w, Departed(w.ledger), queue[i]))
      && (w.ledger.lost == {} ==>
        forall i :: 0 <= i < |queue| && Below(w, queue[i]) ==> Accounted(queue, w, OnRecord(w.ledger), queue[i]))
  {
    FirstStartInv(queue, start);
    RunKeeps(queue, start, events);
    FilteredInForce(queue, start, events);
    hide InForce;
    var l := After(queue, start, events).ledger;
    assert l.lost == {} ==> Departed(l) == OnRecord(l);
  }

  /** Every restart of the run, at the state it met, replays without losing a report of drops. */
  ghost predicate AllDrainsReport(queue: seq<Update>, start: World, events: seq<Event>) {
    forall i :: 0 <= i < |events| && events[i].Restart? ==>
      Buffer.NothingUnreported(After(queue, start, events[..i]).db, events[i].allow, events[i].replay)
  }

  lemma StepLoses(queue: seq<Update>, w: World, e: Event)
    requires DbOk(w.db)
    ensures w.ledger.lost <= Step(queue, w, e).ledger.lost
    ensures Step(queue, w, e).ledger.lost == {} <==>
      w.ledger.lost == {} && (e.Restart? ==> Buffer.NothingUnreported(w.db, e.allow, e.replay))
  {
    if e.Restart? {
      var d := Buffer.ReplayLoop(w.db, e.allow, e.replay);
      Buffer.LoopAccounts(w.db, e.allow, e.replay);
      hide Buffer.ReplayLoop, DbOk;
      var named := NamedIn(w.db.pending, d.report);
      if i :| 0 <= i < |d.report| && d.report[i].dropped != [] {
        var k := Key(d.report[i].chat, d.report[i].dropped[0]);
        assert Buffer.Names(d.report, k);
        var p :| p in w.db.pending && KeyOf(p.msg) == k;
        assert p.msg in named;
      } else {
        assert named == {};
      }
    } else {
      hide Persisted, Skipped, Collected, Delivered, FilteredOf, AllowSet;
    }
  }

  lemma {:induction false} RunLosesIff(queue: seq<Update>, start: World, events: seq<Event>)
    requires QueueOk(queue) && Inv(queue, start) && start.ledger.lost == {}
    ensures After(queue, start, events).ledger.lost == {} <==> AllDrainsReport(queue, start, events)
  {
    if events != [] {
      var n := |events| - 1;
      RunLosesIff(queue, start, events[..n]);
      RunKeeps(queue, start, events[..n]);
      StepLoses(queue, After(queue, start, events[..n]), events[n]);
      DrainsReportStep(queue, start, events);
      hide Step, Inv, AllDrainsReport, Buffer.NothingUnreported;
    }
  }

  lemma DrainsReportStep(queue: seq<Update>, start: World, events: seq<Event>)
    requires events != []
    ensures var n := |events| - 1;
      AllDrainsReport(queue, start, events) <==>
      && AllDrainsReport(queue, start, events[..n])
      && (events[n].Restart? ==>
        Buffer.NothingUnreported(After(queue, start, events[..n]).db, events[n].allow, events[n].replay))
  {
    hide After, Buffer.NothingUnreported;
    var n := |events| - 1;
    forall i | 0 <= i < n ensures events[..n][i] == events[i] && events[..n][..i] == events[..i] { }
  }

  /**
   The program's records are complete, every update below the offset or the confirmed mark filtered,
   refused, held no older, reported as dropped or expired, in every run in which no drain fails after
   a chat of it dropped something; and exactly in those runs no drop goes unreported.
   */
  lemma RecordsAreCompleteIff(queue: seq<Update>, start: World, events: seq<Event>)
    requires QueueOk(queue) && IsFirstStart(start)
    ensures var w := After(queue, start, events);
      && (w.ledger.lost == {} <==> AllDrainsReport(queue, start, events))
      && (AllDrainsReport(queue, start, events) ==>
        forall i :: 0 <= i < |queue| && Below(w, queue[i]) ==> Accounted(queue, w, OnRecord(w.ledger), queue[i]))
  {
    FirstStartInv(queue, start);
    RunLosesIff(queue, start, events);
    NothingConfirmedIsLost(queue, start, events);
    hide After, AllDrainsReport, Accounted;
  }

  /** At every restart of the run nothing is buffered for any chat of its list but the last. */
  ghost predicate OnlyLastEverBuffered(queue: seq<Update>, start: World, events: seq<Event>) {
    forall i :: 0 <= i < |events| && events[i].Restart? ==>
      Buffer.OnlyLastBuffered(After(queue, start, events[..i]).db.pending, events[i].allow)
  }

  /** Such a run loses no report, whatever the database answers. */
  lemma SureToReport(queue: seq<Update>, start: World, events: seq<Event>)
    requires QueueOk(queue) && IsFirstStart(start) && OnlyLastEverBuffered(queue, start, events)
    ensures var w := After(queue, start, events);
      && w.ledger.lost == {}
      && forall i :: 0 <= i < |queue| && Below(w, queue[i]) ==> Accounted(queue, w, OnRecord(w.ledger), queue[i])
  {
    forall i | 0 <= i < |events| && events[i].Restart?
      ensures Buffer.NothingUnreported(After(queue, start, events[..i]).db, events[i].allow, events[i].replay)
    {
      Buffer.OnlyLastReports(After(queue, start, events[..i]).db, events[i].allow, events[i].replay);
    }
    RecordsAreCompleteIff(queue, start, events);
    hide After, Accounted;
  }

  /** A row leaves the buffer in a step only by that step's sweep, past its time, or by that step's drain. */
  lemma BufferLeavesARecord(queue: seq<Update>, w: World, e: Event, p: Pending)
    requires QueueOk(queue) && Inv(queue, w) && p in w.db.pending
    requires !Buffer.HasPending(Step(queue, w, e).db.pending, KeyOf(p.msg))
    ensures e.Sweep? || e.Restart?
    ensures e.Sweep? ==> p.received < e.now - (if e.ttl == 0 then 14 * 86400 else e.ttl)
    ensures e.Restart? ==>
      var d := Buffer.ReplayLoop(w.db, e.allow, e.replay);
      || (p.msg in d.moved && HasRow(Step(queue, w, e).db.rows, KeyOf(p.msg)))
      || Buffer.Names(d.report, KeyOf(p.msg))
      || (d.status == Done && p.received < e.now - (if e.ttl == 0 then 14 * 86400 else e.ttl))
  {
    var after := Step(queue, w, e);
    match e {
      case PollFailed => HasPendingOf(after.db.pending, p);
      case Poll(n, now, a) =>
        PollKeepsPending(queue, w, n, now, a, p);
        if !w.running { HasPendingOf(after.db.pending, p); }
      case Sweep(now, ttl, fate) =>
        SweptPending(w, now, ttl, fate, p);
        if p in after.db.pending { HasPendingOf(after.db.pending, p); }
      case Restart(allow, now, ttl, replay, sweep) =>
        var booting := World(w.db, w.confirmed, true, allow, START, w.ledger.(fails := []));
        var drained := DrainedWorld(booting, replay);
        SweptPending(drained, now, ttl, sweep, p);
        if p in after.db.pending { HasPendingOf(after.db.pending, p); }
        DrainMoves(w, allow, replay, p);
    }
  }

  /** Adding a chat wins over the ttl: its backlog is replayed, however old, and not swept. */
  lemma BacklogBeatsTtl(queue: seq<Update>, w: World, e: Event, p: Pending)
    requires DbOk(w.db) && p in w.db.pending && e.Restart? && p.msg.chat in e.allow
    requires Buffer.ReplayLoop(w.db, e.allow, e.replay).status == Done
    ensures var k := KeyOf(p.msg);
      || HasRow(Step(queue, w, e).db.rows, k)
      || Buffer.Names(Buffer.ReplayLoop(w.db, e.allow, e.replay).report, k)
  {
    Buffer.LoopEmpties(w.db, e.allow, e.replay);
    DrainMoves(w, e.allow, e.replay, p);
  }

  lemma HasPendingOf(pending: seq<Pending>, p: Pending)
    requires p in pending
    ensures Buffer.HasPending(pending, KeyOf(p.msg))
  {
    var i :| 0 <= i < |pending| && pending[i] == p;
    assert KeyOf(pending[i].msg) == KeyOf(p.msg);
  }

  lemma DrainMoves(w: World, allow: seq<int>, replay: nat -> Fates, p: Pending)
    requires DbOk(w.db) && p in w.db.pending
    ensures var d := Buffer.ReplayLoop(w.db, allow, replay);
      && (p in d.tx.pending || p.msg in d.moved || Buffer.Names(d.report, KeyOf(p.msg)))
      && (p.msg in d.moved ==> HasRow(d.tx.rows, KeyOf(p.msg)))
  {
    var d := Buffer.ReplayLoop(w.db, allow, replay);
    Buffer.LoopAccounts(w.db, allow, replay);
    Buffer.LoopMoves(w.db, allow, replay);
    ApplyKeeps(w.db.rows, d.moved);
    hide Buffer.ReplayLoop, Apply, RowsOk, Extends;
    if p.msg in d.moved {
      var i :| 0 <= i < |d.moved| && d.moved[i] == p.msg;
      assert HasRow(Apply(w.db.rows, d.moved), KeyOf(d.moved[i]));
    }
  }

  /** Polls only add to the buffer. */
  lemma PollKeepsPending(queue: seq<Update>, w: World, n: nat, now: int, a: Answers, p: Pending)
    requires DbOk(w.db) && p in w.db.pending
    ensures Buffer.HasPending(Polled(queue, w, n, now, a).db.pending, KeyOf(p.msg))
  {
    var recs := Collected(Delivered(queue, w, n), AllowSet(w.allow));
    var db := Persisted(w.db, recs, now, a).0;
    HasPendingOf(w.db.pending, p);
    PersistedGrows(w.db, recs, now, a);
    SkippedGrows(db, recs, a.later, a.single);
    HasPendingStays(w.db.pending, db.pending, KeyOf(p.msg));
    HasPendingStays(db.pending, Skipped(db, recs, a.later, a.single).db.pending, KeyOf(p.msg));
    hide Persisted, Skipped, Collected, Delivered, AllowSet, FilteredOf, DbOk, Buffer.HasPending;
  }

  lemma HasPendingStays(a: seq<Pending>, b: seq<Pending>, k: Key)
    requires Buffer.PendingExtends(a, b) && Buffer.HasPending(a, k)
    ensures Buffer.HasPending(b, k)
  {
    var i :| 0 <= i < |a| && KeyOf(a[i].msg) == k;
    assert KeyOf(b[i].msg) == k;
  }

  lemma PersistedGrows(db: Db, recs: seq<Record>, now: int, a: Answers)
    requires DbOk(db)
    ensures DbOk(Persisted(db, recs, now, a).0)
    ensures Buffer.PendingExtends(db.pending, Persisted(db, recs, now, a).0.pending)
  {
    var ps := Unknown(recs, now);
    var buffered := Buffer.PendingBatch(db, ps, a.pending).0;
    Buffer.PendingBatchKeepsTables(db, ps, a.pending);
    Buffer.HoldKeeps(db.pending, ps);
    BatchKeepsTables(buffered, Known(recs), a.messages);
  }

  lemma SingleGrows(db: Db, r: Record, now: int, fate: Fates)
    requires DbOk(db)
    ensures DbOk(Single(db, r, now, fate).0)
    ensures Buffer.PendingExtends(db.pending, Single(db, r, now, fate).0.pending)
  {
    if r.unknown.Some? {
      var ps := [PendingOf(r, now)];
      Buffer.PendingBatchKeepsTables(db, ps, fate);
      Buffer.HoldKeeps(db.pending, ps);
    } else {
      BatchKeepsTables(db, [r.msg], fate);
    }
  }

  lemma PendingExtendsTrans(a: seq<Pending>, b: seq<Pending>, c: seq<Pending>)
    requires Buffer.PendingExtends(a, b) && Buffer.PendingExtends(b, c)
    ensures Buffer.PendingExtends(a, c)
  {
  }

  lemma {:induction false} SkippedGrows(db: Db, recs: seq<Record>, now: int, single: nat -> Fates)
    requires DbOk(db)
    ensures DbOk(Skipped(db, recs, now, single).db)
    ensures Buffer.PendingExtends(db.pending, Skipped(db, recs, now, single).db.pending)
  {
    if recs != [] {
      var n := |recs| - 1;
      SkippedGrows(db, recs[..n], now, single);
      var before := Skipped(db, recs[..n], now, single);
      SingleGrows(before.db, recs[n], now, single(n));
      PendingExtendsTrans(db.pending, before.db.pending, Single(before.db, recs[n], now, single(n)).0.pending);
      hide DbOk, Buffer.PendingExtends, Single;
    }
  }

  // ----- offset and retry discipline -----

  /** The delivery meets a failure other than a rejected row. */
  predicate MeetsOutage(queue: seq<Update>, w: World, n: nat, now: int, a: Answers) {
    var updates := Delivered(queue, w, n);
    var recs := Collected(updates, AllowSet(w.allow));
    var (db, status) := Persisted(w.db, recs, now, a);
    updates != [] && (status == Failed || (Skips(queue, w, n, now, a) && !Skipped(db, recs, a.later, a.single).ok))
  }

  /** The delivery ends in the per-message replay. */
  predicate Skips(queue: seq<Update>, w: World, n: nat, now: int, a: Answers) {
    var updates := Delivered(queue, w, n);
    && updates != []
    && Persisted(w.db, Collected(updates, AllowSet(w.allow)), now, a).1 == BadMessage
    && 1 + (if w.loop.failedFrom == updates[0].id then w.loop.storeFails else 0) >= STORE_RETRIES
  }

  /** The offset never falls, and does not move in an iteration that meets an outage. */
  lemma OffsetDiscipline(queue: seq<Update>, w: World, n: nat, now: int, a: Answers)
    requires QueueOk(queue)
    ensures Polled(queue, w, n, now, a).loop.offset >= w.loop.offset
    ensures MeetsOutage(queue, w, n, now, a) ==> Polled(queue, w, n, now, a).loop.offset == w.loop.offset
  {
    var updates := Delivered(queue, w, n);
    if updates != [] { DeliveredFrom(queue, w, n, 0); }
  }

  /** How many deliveries in a row, with this one, have failed at its first update. */
  function FailuresAt(w: World, first: int): nat {
    1 + (if w.loop.failedFrom == first then w.loop.storeFails else 0)
  }

  /**
   A delivery moves the offset past its last update exactly when it is persisted, or it is rejected for a
   row's sake for the third time and the replay one by one runs to its end; otherwise the offset stays.
   */
  lemma OffsetMovesIff(queue: seq<Update>, w: World, n: nat, now: int, a: Answers)
    requires QueueOk(queue) && Delivered(queue, w, n) != []
    ensures var updates, allow := Delivered(queue, w, n), AllowSet(w.allow);
      var recs := Collected(updates, allow);
      var (db, status) := Persisted(w.db, recs, now, a);
      Polled(queue, w, n, now, a).loop.offset ==
        if || status == Done
           || (status == BadMessage && FailuresAt(w, updates[0].id) >= 3 && Skipped(db, recs, a.later, a.single).ok)
        then updates[|updates| - 1].id + 1 else w.loop.offset
  {
    hide Persisted, Skipped, Collected, Delivered, AllowSet, FilteredOf, Confirmed;
  }

  /** How many of the latest failed deliveries in a row started at `first`. */
  function Trailing(fails: seq<int>, first: int): nat {
    if fails == [] || fails[|fails| - 1] != first then 0 else 1 + Trailing(fails[..|fails| - 1], first)
  }

  /** The counter never claims more failures than the process has seen at the id it is keyed on. */
  predicate CountOk(w: World) {
    w.loop.storeFails <= Trailing(w.ledger.fails, w.loop.failedFrom)
  }

  lemma TrailingPush(fails: seq<int>, first: int)
    ensures Trailing(fails + [first], first) == 1 + Trailing(fails, first)
  {
    assert (fails + [first])[..|fails|] == fails;
  }

  lemma StepKeepsCount(queue: seq<Update>, w: World, e: Event)
    requires CountOk(w)
    ensures CountOk(Step(queue, w, e))
  {
    hide Persisted, Skipped, Collected, Delivered, FilteredOf, AllowSet, Confirmed;
    match e
    case Poll(n, now, a) =>
      var updates := Delivered(queue, w, n);
      if w.running && updates != [] { TrailingPush(w.ledger.fails, updates[0].id); }
    case Restart(_, _, _, _, _) =>
    case PollFailed =>
    case Sweep(_, _, _) =>
  }

  lemma {:induction false} RunKeepsCount(queue: seq<Update>, w: World, events: seq<Event>)
    requires CountOk(w)
    ensures CountOk(After(queue, w, events))
  {
    if events != [] {
      RunKeepsCount(queue, w, events[..|events| - 1]);
      StepKeepsCount(queue, After(queue, w, events[..|events| - 1]), events[|events| - 1]);
    }
  }

  /**
   Messages are skipped one by one only after three failed deliveries in a row, in this process
   and with the skipped one the last of them, that all started at the very update it starts at.
   */
  lemma SkippingIsALastResort(queue: seq<Update>, start: World, events: seq<Event>, n: nat, now: int, a: Answers)
    requires IsFirstStart(start)
    requires var w := After(queue, start, events);
      w.running && Skips(queue, w, n, now, a)
    ensures var w := After(queue, start, events);
      Trailing(w.ledger.fails + [Delivered(queue, w, n)[0].id], Delivered(queue, w, n)[0].id) >= 3
  {
    RunKeepsCount(queue, start, events);
    var w := After(queue, start, events);
    TrailingPush(w.ledger.fails, Delivered(queue, w, n)[0].id);
  }

  /** A redelivery that starts at the same update adds to the count, however its tail has grown. */
  lemma TailsDoNotReset(queue: seq<Update>, w: World, n: nat, now: int, a: Answers)
    requires Delivered(queue, w, n) != [] && w.loop.failedFrom == Delivered(queue, w, n)[0].id
    requires Polled(queue, w, n, now, a).loop.offset == w.loop.offset && QueueOk(queue)
    ensures Polled(queue, w, n, now, a).loop == w.loop.(storeFails := w.loop.storeFails + 1)
  {
    DeliveredFrom(queue, w, n, |Delivered(queue, w, n)| - 1);
  }

  // ----- a poison update cannot stall the queue -----

  /** The database is up: it may refuse rows but nothing else fails. */
  ghost predicate Up(fate: Fates) {
    && fate(Begin) == Accepted && fate(Commit) == Accepted
    && (forall i :: fate(Upsert(i)) != Outage)
    && (forall i :: fate(ClearIndex(i)) != Outage)
    && (forall i :: fate(Index(i)) != Outage)
    && (forall i :: fate(Stmt.Buffer(i)) != Outage)
  }

  ghost predicate AllUp(a: Answers) {
    Up(a.pending) && Up(a.messages) && forall i :: Up(a.single(i))
  }

  lemma {:induction false} UpBatch(db: Db, msgs: seq<Message>, fate: Fates)
    requires Up(fate)
    ensures BatchTx(db, msgs, fate).1 != Failed && Batch(db, msgs, fate).1 != Failed
  {
    if msgs != [] { UpBatch(db, msgs[..|msgs| - 1], fate); }
  }

  lemma {:induction false} UpPending(db: Db, ps: seq<Pending>, fate: Fates)
    requires Up(fate)
    ensures Buffer.BufferTx(db, ps, fate).1 != Failed && Buffer.PendingBatch(db, ps, fate).1 != Failed
  {
    if ps != [] { UpPending(db, ps[..|ps| - 1], fate); }
  }

  lemma {:induction false} UpSkipped(db: Db, recs: seq<Record>, now: int, single: nat -> Fates)
    requires forall i :: Up(single(i))
    ensures Skipped(db, recs, now, single).ok
  {
    if recs != [] {
      var n := |recs| - 1;
      UpSkipped(db, recs[..n], now, single);
      var s := Skipped(db, recs[..n], now, single);
      assert Up(single(n));
      if recs[n].unknown.Some? {
        UpPending(s.db, [PendingOf(recs[n], now)], single(n));
      } else {
        UpBatch(s.db, [recs[n].msg], single(n));
      }
    }
  }

  /** Either the offset passes `first`, or it stays and one more failure is counted at `first`, below the limit. */
  predicate PassedOrCounted(before: World, after: World, first: int) {
    || after.loop.offset > first
    || (&& after.loop.offset == before.loop.offset && after.loop.failedFrom == first
        && after.loop.storeFails == 1 + (if before.loop.failedFrom == first then before.loop.storeFails else 0)
        && after.loop.storeFails < STORE_RETRIES
        && after.confirmed == Confirmed(before))
  }

  lemma UpPoll(queue: seq<Update>, w: World, n: nat, now: int, a: Answers, first: int)
    requires QueueOk(queue) && AllUp(a) && n > 0
    requires From(queue, Confirmed(w)) != [] && first == From(queue, Confirmed(w))[0].id
    ensures PassedOrCounted(w, Polled(queue, w, n, now, a), first)
  {
    var updates := Delivered(queue, w, n);
    assert updates[0].id == first;
    DeliveredFrom(queue, w, n, 0);
    var recs := Collected(updates, AllowSet(w.allow));
    var buffered := Buffer.PendingBatch(w.db, Unknown(recs, now), a.pending).0;
    UpPending(w.db, Unknown(recs, now), a.pending);
    UpBatch(buffered, Known(recs), a.messages);
    UpSkipped(Persisted(w.db, recs, now, a).0, recs, a.later, a.single);
  }

  /** A process that keeps running while deliveries meet a database that is up; anything else may happen. */
  ghost predicate UpRun(events: seq<Event>) {
    forall i :: 0 <= i < |events| ==> !events[i].Restart? && (IsDelivery(events[i]) ==> AllUp(events[i].answers))
  }

  predicate IsDelivery(e: Event) { e.Poll? && e.n > 0 }

  function Deliveries(events: seq<Event>): nat {
    if events == [] then 0
    else Deliveries(events[..|events| - 1]) + (if IsDelivery(events[|events| - 1]) then 1 else 0)
  }

  /** Past `first`, or stuck at it with every delivery so far counted. */
  predicate Counted(before: World, after: World, first: int, deliveries: nat) {
    || after.loop.offset > first
    || (&& after.running && Confirmed(after) == Confirmed(before)
        && (deliveries > 0 ==> after.loop.failedFrom == first && deliveries <= after.loop.storeFails < STORE_RETRIES))
  }

  /** Failed polls, empty polls and sweeps change neither the loop's variables nor what is confirmed. */
  lemma IdleKeepsLoop(queue: seq<Update>, w: World, e: Event)
    requires w.running && !e.Restart? && !IsDelivery(e)
    ensures var after := Step(queue, w, e);
      after.running && after.loop == w.loop && Confirmed(after) == Confirmed(w)
  {
    if e.Poll? {
      assert Delivered(queue, w, 0) == [];
      hide From, Persisted, Skipped, Collected;
    }
  }

  lemma CountedStep(queue: seq<Update>, w: World, before: World, e: Event, first: int, deliveries: nat)
    requires QueueOk(queue) && Counted(w, before, first, deliveries)
    requires !e.Restart? && (IsDelivery(e) ==> AllUp(e.answers))
    requires From(queue, Confirmed(w)) != [] && first == From(queue, Confirmed(w))[0].id
    ensures Counted(w, Step(queue, before, e), first, if IsDelivery(e) then deliveries + 1 else deliveries)
  {
    if before.running {
      if IsDelivery(e) {
        StepPolls(queue, before, e);
        hide Step, Polled, AllUp, From, QueueOk;
        OffsetDiscipline(queue, before, e.n, e.now, e.answers);
        if before.loop.offset <= first { UpPoll(queue, before, e.n, e.now, e.answers, first); }
      } else {
        IdleKeepsLoop(queue, before, e);
      }
    }
  }

  lemma {:induction false} RunCounts(queue: seq<Update>, w: World, events: seq<Event>, first: int)
    requires QueueOk(queue) && w.running && UpRun(events)
    requires From(queue, Confirmed(w)) != [] && first == From(queue, Confirmed(w))[0].id
    ensures Counted(w, After(queue, w, events), first, Deliveries(events))
  {
    hide Step, From, QueueOk, AllUp;
    if events != [] {
      var n := |events| - 1;
      RunCounts(queue, w, events[..n], first);
      CountedStep(queue, w, After(queue, w, events[..n]), events[n], first, Deliveries(events[..n]));
    }
  }

  /**
   One bad update cannot stall every chat: while the database is up, three deliveries or more move the
   offset past the update they start at, however long each is, whatever rows are refused, and whatever
   failed polls, empty polls and sweeps come between them.
   */
  lemma PoisonCannotStall(queue: seq<Update>, w: World, events: seq<Event>)
    requires QueueOk(queue) && w.running && UpRun(events) && Deliveries(events) >= 3
    requires From(queue, Confirmed(w)) != []
    ensures After(queue, w, events).loop.offset > From(queue, Confirmed(w))[0].id
  {
    RunCounts(queue, w, events, From(queue, Confirmed(w))[0].id);
  }

  /** What a poll changes besides the tables and the loop. */
  lemma StepPolls(queue: seq<Update>, w: World, e: Event)
    requires w.running && (e.PollFailed? || e.Poll?)
    ensures var after := Step(queue, w, e);
      && after.running && after.allow == w.allow && after.confirmed == Confirmed(w)
      && (e.PollFailed? ==> after == w.(confirmed := Confirmed(w)))
      && (e.Poll? ==> after == Polled(queue, w, e.n, e.now, e.answers))
      && (e.Poll? && Delivered(queue, w, e.n) == [] ==> after == w.(confirmed := Confirmed(w)))
  {
    hide Persisted, Skipped, Collected, Delivered, FilteredOf, AllowSet;
  }

  // ----- the service itself -----

  /** Telegram's side: everything it has to hand out and what an offset has confirmed. */
  class Telegram {
    const queue: seq<Update>
    var confirmed: int

    constructor (queue: seq<Update>)
      ensures this.queue == queue && confirmed == 0
    {
      this.queue := queue;
      confirmed := 0;
    }

    /** A positive offset confirms everything below it; at most `n` pending updates come back. */
    method GetUpdates(offset: int, n: nat) returns (updates: seq<Update>)
      modifies this
      ensures confirmed == if offset > 0 then Max(old(confirmed), offset) else old(confirmed)
      ensures updates == (var pending := From(queue, confirmed); if n <= |pending| then pending[..n] else pending)
    {
      if offset > confirmed && offset > 0 { confirmed := offset; }
      var pending := From(queue, confirmed);
      updates := if n <= |pending| then pending[..n] else pending;
    }
  }

  class Service {
    const store: Store.Store
    const allow: set<int>
    var seenUnknown: set<int>

    constructor (store: Store.Store, allow: set<int>)
      ensures this.store == store && this.allow == allow && seenUnknown == {}
    {
      this.store := store;
      this.allow := allow;
      seenUnknown := {};
    }

    method Collect(updates: seq<Update>) returns (recs: seq<Record>)
      modifies this
      ensures recs == Collected(updates, allow)
      ensures UpdatesOf(recs) == Queries.Where(updates, u => !NothingToStore(u, allow))
      ensures forall r :: r in recs ==> Carried(r, allow)
      ensures forall c :: c in seenUnknown <==> c in old(seenUnknown) || HeardFrom(updates, allow, c)
    {
      CollectedIff(updates, allow);
      hide NothingToStore, Carried;
      recs := [];
      for i := 0 to |updates|
        invariant recs == Collected(updates[..i], allow)
        invariant seenUnknown == old(seenUnknown) + Strangers(updates[..i], allow)
      {
        var u := updates[i];
        assert updates[..i + 1] == updates[..i] + [u] && updates[..i + 1][..i] == updates[..i];
        assert Strangers(updates[..i + 1], allow) == Strangers(updates[..i], allow) + Strangers([u], allow);
        if u.msg.None? || u.msg.value.migrated { continue; }
        var m := u.msg.value;
        var unknown := None;
        if m.chat !in allow {
          assert u in [u];
          unknown := Some(ChatRef(m.title, m.kind));
          seenUnknown := seenUnknown + {m.chat};
          if !Bufferable(m.kind) { continue; }
        }
        if m.body.None? { continue; }
        recs := recs + [Record(u, Message(0, m.chat, m.mid, m.sent, m.body.value), unknown)];
      }
      assert updates[..|updates|] == updates;
    }

    method Split(recs: seq<Record>, now: int) returns (msgs: seq<Message>, pend: seq<Pending>)
      ensures msgs == Known(recs) && pend == Unknown(recs, now)
    {
      msgs, pend := [], [];
      for i := 0 to |recs|
        invariant msgs == Known(recs[..i]) && pend == Unknown(recs[..i], now)
      {
        assert recs[..i + 1][..i] == recs[..i];
        if recs[i].unknown.None? {
          msgs := msgs + [recs[i].msg];
        } else {
          pend := pend + [PendingOf(recs[i], now)];
        }
      }
      assert recs[..|recs|] == recs;
    }

    method Persist(recs: seq<Record>, now: int, a: Answers) returns (status: Status)
      requires store.Valid()
      modifies store`db, store`latest
      ensures store.Valid() && (store.db, status) == Persisted(old(store.db), recs, now, a)
    {
      if recs == [] { return Done; }
      var msgs, pend := Split(recs, now);
      if pend != [] {
        status := store.UpsertPendingBatch(pend, a.pending);
        if status != Done { return; }
      }
      status := Done;
      if msgs != [] {
        status := store.UpsertBatch(msgs, a.messages);
      }
    }

    /** Also the ids logged as refused. */
    method SkipPoison(recs: seq<Record>, now: int, single: nat -> Fates) returns (ok: bool, refused: set<int>)
      requires store.Valid()
      modifies store`db, store`latest
      ensures store.Valid() && Skipping(store.db, refused, ok) == Skipped(old(store.db), recs, now, single)
    {
      refused := {};
      for i := 0 to |recs|
        invariant store.Valid()
        invariant Skipped(old(store.db), recs[..i], now, single) == Skipping(store.db, refused, true)
      {
        assert recs[..i + 1][..i] == recs[..i];
        var status;
        if recs[i].unknown.Some? {
          status := store.UpsertPendingBatch([PendingOf(recs[i], now)], single(i));
        } else {
          status := store.UpsertBatch([recs[i].msg], single(i));
        }
        if status == BadMessage {
          refused := refused + {recs[i].update.id};
        } else if status != Done {
          SkippedStops(old(store.db), recs, now, single, i + 1);
          return false, refused;
        }
      }
      assert recs[..|recs|] == recs;
      ok := true;
    }

    /** One turn of the loop after a successful poll, on the loop's variables. */
    method Deliver(
        updates: seq<Update>, now: int, a: Answers, loop: Loop, ghost queue: seq<Update>, ghost w: World,
        ghost n: nat)
      returns (next: Loop, refused: set<int>)
      requires store.Valid() && updates == Delivered(queue, w, n) && updates != []
      requires w.db == store.db && AllowSet(w.allow) == allow && w.loop == loop
      modifies this, store`db, store`latest
      ensures store.Valid()
      ensures var after := Polled(queue, w, n, now, a);
        store.db == after.db && next == after.loop && after.ledger.refused == w.ledger.refused + refused
    {
      hide Persisted, Skipped, Collected, Delivered, FilteredOf, AllowSet, Strangers, Confirmed, DbOk, Latest.Inv;
      refused := {};
      var first, last := updates[0].id, updates[|updates| - 1].id;
      var offset, failedFrom, storeFails := loop.offset, loop.failedFrom, loop.storeFails;
      var recs := Collect(updates);
      var status := Persist(recs, now, a);
      if status != Done {
        if failedFrom != first { failedFrom, storeFails := first, 0; }
        storeFails := storeFails + 1;
        if storeFails < STORE_RETRIES || status != BadMessage { return Loop(offset, failedFrom, storeFails), {}; }
        var ok;
        ok, refused := SkipPoison(recs, a.later, a.single);
        if !ok { return Loop(offset, failedFrom, storeFails), refused; }
        storeFails := 0;
      }
      next := Loop(last + 1, failedFrom, storeFails);
    }

    /** The poll loop over the answers the environment gives, from the process's start. */
    method Run(tg: Telegram, events: seq<Event>, ghost start: World) returns (loop: Loop, refused: set<int>)
      requires store.Valid()
      requires forall e :: e in events ==> e.PollFailed? || e.Poll?
      requires start.running && start.db == store.db && start.confirmed == tg.confirmed
      requires AllowSet(start.allow) == allow
      requires start.loop == START && start.ledger.refused == {}
      modifies this, store`db, store`latest, tg
      ensures store.Valid()
      ensures var w := After(tg.queue, start, events);
        store.db == w.db && tg.confirmed == w.confirmed && loop == w.loop && refused == w.ledger.refused
    {
      hide From, Polled, AllowSet, DbOk, Latest.Inv;
      loop, refused := START, {};
      ghost var w := start;
      for i := 0 to |events|
        invariant store.Valid()
        invariant w == After(tg.queue, start, events[..i])
        invariant w.running && AllowSet(w.allow) == allow
        invariant store.db == w.db && tg.confirmed == w.confirmed && loop == w.loop && refused == w.ledger.refused
      {
        assert events[..i + 1][..i] == events[..i];
        assert events[i] in events;
        StepPolls(tg.queue, w, events[i]);
        match events[i] {
          case PollFailed =>
            var _ := tg.GetUpdates(loop.offset, 0);
          case Poll(n, now, a) =>
            var updates := tg.GetUpdates(loop.offset, n);
            if updates != [] {
              var more;
              loop, more := Deliver(updates, now, a, loop, tg.queue, w, n);
              refused := refused + more;
            }
        }
        w := Step(tg.queue, w, events[i]);
      }
      assert events[..|events|] == events;
    }
  }

  lemma {:induction false} SkippedStops(db: Db, recs: seq<Record>, now: int, single: nat -> Fates, i: nat)
    requires i <= |recs| && !Skipped(db, recs[..i], now, single).ok
    ensures Skipped(db, recs, now, single) == Skipped(db, recs[..i], now, single)
  {
    if i == |recs| {
      assert recs[..i] == recs;
    } else {
      var n := |recs| - 1;
      assert recs[..n][..i] == recs[..i];
      SkippedStops(db, recs[..n], now, single, i);
    }
  }
}
