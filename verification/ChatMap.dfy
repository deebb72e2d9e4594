/** The chat map: what validate accepts, and why every accepted chat can be addressed. */
module ChatMap {
  import opened Base

  /** `tag` is the label, `alias` the public name. */
  datatype ChatInfo = ChatInfo(customer: string, tag: string, alias: string, username: string)

  type Chats = map<int, ChatInfo>

  datatype Problem =
    | EmptyCustomer(id: int)
    | MissingLabel(id: int)
    | SharedLabel(other: int, id: int)
    | BadAlias(id: int)
    | SharedAlias(other: int, id: int)
    | BadUsername(id: int)
    | UsernameWithoutAlias(id: int)

  // ----- the rules -----

  predicate LowerOrDigit(c: char) { 'a' <= c <= 'z' || '0' <= c <= '9' }

  predicate Letter(c: char) { 'a' <= c <= 'z' || 'A' <= c <= 'Z' }

  /** ^[a-z0-9][a-z0-9-]*$ */
  predicate IsAlias(s: string) {
    s != "" && LowerOrDigit(s[0]) && forall i :: 0 < i < |s| ==> LowerOrDigit(s[i]) || s[i] == '-'
  }

  /** ^[A-Za-z][A-Za-z0-9_]{3,31}$ */
  predicate IsUsername(s: string) {
    4 <= |s| <= 32 && Letter(s[0]) && forall i :: 0 < i < |s| ==> Letter(s[i]) || '0' <= s[i] <= '9' || s[i] == '_'
  }

  /** Small letters, digits and dashes, not starting with a dash. */
  lemma IsAliasIff(s: string)
    ensures IsAlias(s) <==>
      && s != "" && s[0] != '-'
      && forall i :: 0 <= i < |s| ==> s[i] in SMALL || s[i] in DIGITS || s[i] == '-'
  {
    forall i | 0 <= i < |s| ensures LowerOrDigit(s[i]) <==> s[i] in SMALL || s[i] in DIGITS {
      SmallLetters(s[i]);
      DecimalDigits(s[i]);
    }
    assert !LowerOrDigit('-');
  }

  /** Four to thirty-two letters, digits and underscores, starting with a letter. */
  lemma IsUsernameIff(s: string)
    ensures IsUsername(s) <==>
      && 4 <= |s| <= 32 && (s[0] in SMALL || s[0] in CAPITAL)
      && forall i :: 0 < i < |s| ==> s[i] in SMALL || s[i] in CAPITAL || s[i] in DIGITS || s[i] == '_'
  {
    forall i | 0 <= i < |s|
      ensures Letter(s[i]) <==> s[i] in SMALL || s[i] in CAPITAL
      ensures '0' <= s[i] <= '9' <==> s[i] in DIGITS
    {
      SmallLetters(s[i]);
      CapitalLetters(s[i]);
      DecimalDigits(s[i]);
    }
  }

  /** What one entry must meet by itself. */
  predicate EntryOk(info: ChatInfo) {
    && info.customer != ""
    && (info.alias != "" ==> IsAlias(info.alias))
    && (info.username != "" ==> IsUsername(info.username) && info.alias != "")
  }

  /** Two chats of one customer carry different labels, and neither goes without. */
  predicate LabelsOk(chats: Chats) {
    forall a, b :: a in chats && b in chats && a != b && chats[a].customer == chats[b].customer ==>
      chats[a].tag != "" && chats[a].tag != chats[b].tag
  }

  predicate AliasesOk(chats: Chats) {
    forall a, b :: a in chats && b in chats && a != b && chats[a].alias != "" ==> chats[a].alias != chats[b].alias
  }

  predicate MapOk(chats: Chats) {
    (forall id :: id in chats ==> EntryOk(chats[id])) && LabelsOk(chats) && AliasesOk(chats)
  }

  /** What a reported problem says about the map. */
  predicate Explains(chats: Chats, p: Problem) {
    && p.id in chats
    && match p
       case EmptyCustomer(id) => chats[id].customer == ""
       case MissingLabel(id) => chats[id].tag == "" &&
         exists other :: other in chats && other != id && chats[other].customer == chats[id].customer
       case SharedLabel(other, id) => other in chats && other != id &&
         chats[other].customer == chats[id].customer && chats[other].tag == chats[id].tag
       case BadAlias(id) => chats[id].alias != "" && !IsAlias(chats[id].alias)
       case SharedAlias(other, id) => other in chats && other != id &&
         chats[id].alias != "" && chats[other].alias == chats[id].alias
       case BadUsername(id) => chats[id].username != "" && !IsUsername(chats[id].username)
       case UsernameWithoutAlias(id) => chats[id].username != "" && chats[id].alias == ""
  }

  lemma ProblemMeansBad(chats: Chats, p: Problem)
    requires Explains(chats, p)
    ensures !MapOk(chats)
  {
    assert EntryOk(chats[p.id]) || !EntryOk(chats[p.id]);
  }

  // ----- ids in order -----

  predicate AllIn(chats: Chats, ids: seq<int>) {
    forall i :: 0 <= i < |ids| ==> ids[i] in chats
  }

  function Ids(chats: Chats): (r: seq<int>)
    ensures AllIn(chats, r)
  {
    var r := Ascending(chats.Keys);
    assert forall i :: 0 <= i < |r| ==> r[i] in r;
    r
  }

  lemma IdsMeans(chats: Chats)
    ensures forall id :: id in Ids(chats) <==> id in chats
    ensures forall i, j :: 0 <= i < j < |Ids(chats)| ==> Ids(chats)[i] < Ids(chats)[j]
  {
  }

  // ----- counting a customer's chats -----

  function CountIn(chats: Chats, ids: seq<int>, customer: string): nat
    requires AllIn(chats, ids)
  {
    if ids == [] then 0
    else
      var n := |ids| - 1;
      CountIn(chats, ids[..n], customer) + (if chats[ids[n]].customer == customer then 1 else 0)
  }

  predicate HasCustomer(chats: Chats, ids: seq<int>, customer: string)
    requires AllIn(chats, ids)
  {
    exists i :: 0 <= i < |ids| && chats[ids[i]].customer == customer
  }

  ghost predicate HasTwo(chats: Chats, ids: seq<int>, customer: string)
    requires AllIn(chats, ids)
  {
    exists i, j :: 0 <= i < j < |ids| && chats[ids[i]].customer == customer && chats[ids[j]].customer == customer
  }

  lemma HasPush(chats: Chats, ids: seq<int>, id: int, customer: string)
    requires AllIn(chats, ids) && id in chats
    ensures AllIn(chats, ids + [id])
    ensures HasCustomer(chats, ids + [id], customer) <==>
      HasCustomer(chats, ids, customer) || chats[id].customer == customer
  {
    var all := ids + [id];
    assert all[|ids|] == id;
    if HasCustomer(chats, ids, customer) {
      var i :| 0 <= i < |ids| && chats[ids[i]].customer == customer;
      assert all[i] == ids[i];
    }
    if HasCustomer(chats, all, customer) {
      var i :| 0 <= i < |all| && chats[all[i]].customer == customer;
      assert i < |ids| ==> all[i] == ids[i];
    }
  }

  lemma TwoPush(chats: Chats, ids: seq<int>, id: int, customer: string)
    requires AllIn(chats, ids) && id in chats
    ensures AllIn(chats, ids + [id])
    ensures HasTwo(chats, ids + [id], customer) <==>
      HasTwo(chats, ids, customer) || (HasCustomer(chats, ids, customer) && chats[id].customer == customer)
  {
    var all := ids + [id];
    assert all[|ids|] == id;
    if HasTwo(chats, ids, customer) {
      var i, j :| 0 <= i < j < |ids| && chats[ids[i]].customer == customer && chats[ids[j]].customer == customer;
      assert all[i] == ids[i] && all[j] == ids[j];
    }
    if HasCustomer(chats, ids, customer) && chats[id].customer == customer {
      var i :| 0 <= i < |ids| && chats[ids[i]].customer == customer;
      assert all[i] == ids[i];
    }
    if HasTwo(chats, all, customer) {
      var i, j :| 0 <= i < j < |all| && chats[all[i]].customer == customer && chats[all[j]].customer == customer;
      assert all[i] == ids[i] && (j < |ids| ==> all[j] == ids[j]);
    }
  }

  /** One means the customer has a chat, more than one that it has two. */
  lemma {:induction false} CountMeans(chats: Chats, ids: seq<int>, customer: string)
    requires AllIn(chats, ids)
    ensures CountIn(chats, ids, customer) >= 1 <==> HasCustomer(chats, ids, customer)
    ensures CountIn(chats, ids, customer) >= 2 <==> HasTwo(chats, ids, customer)
  {
    if ids != [] {
      var n := |ids| - 1;
      CountMeans(chats, ids[..n], customer);
      HasPush(chats, ids[..n], ids[n], customer);
      TwoPush(chats, ids[..n], ids[n], customer);
      hide HasCustomer, HasTwo;
      assert ids == ids[..n] + [ids[n]];
    }
  }

  lemma CountOfOne(chats: Chats, id: int)
    requires id in chats
    ensures CountIn(chats, Ids(chats), chats[id].customer) > 1 <==>
      exists other :: other in chats && other != id && chats[other].customer == chats[id].customer
  {
    hide Ids, CountIn;
    var ids, c := Ids(chats), chats[id].customer;
    IdsMeans(chats);
    CountMeans(chats, ids, c);
    var at :| 0 <= at < |ids| && ids[at] == id;
    if i, j :| 0 <= i < j < |ids| && chats[ids[i]].customer == c && chats[ids[j]].customer == c {
      var other := if ids[i] == id then ids[j] else ids[i];
      assert other in chats && other != id && chats[other].customer == c;
    }
    if other :| other in chats && other != id && chats[other].customer == c {
      assert other in ids;
      var k :| 0 <= k < |ids| && ids[k] == other;
      assert chats[ids[if at < k then at else k]].customer == c && chats[ids[if at < k then k else at]].customer == c;
    }
  }

  // ----- validate -----

  /** The first `n` ids meet the rules among themselves. */
  ghost predicate CheckedUpTo(chats: Chats, ids: seq<int>, n: nat)
    requires n <= |ids| && AllIn(chats, ids)
  {
    && (forall i :: 0 <= i < n ==> EntryOk(chats[ids[i]]))
    && (forall i :: 0 <= i < n && chats[ids[i]].tag == "" ==> CountIn(chats, ids, chats[ids[i]].customer) <= 1)
    && TagsDiffer(chats, ids, n)
    && AliasesDiffer(chats, ids, n)
  }

  ghost predicate TagsDiffer(chats: Chats, ids: seq<int>, n: nat)
    requires n <= |ids| && AllIn(chats, ids)
  {
    forall i, j :: 0 <= i < j < n && chats[ids[i]].customer == chats[ids[j]].customer ==>
      chats[ids[i]].tag != chats[ids[j]].tag
  }

  ghost predicate AliasesDiffer(chats: Chats, ids: seq<int>, n: nat)
    requires n <= |ids| && AllIn(chats, ids)
  {
    forall i, j :: 0 <= i < j < n && chats[ids[i]].alias != "" ==> chats[ids[i]].alias != chats[ids[j]].alias
  }

  lemma CheckedAll(chats: Chats)
    requires CheckedUpTo(chats, Ids(chats), |Ids(chats)|)
    ensures MapOk(chats)
  {
    IdsMeans(chats);
    var ids := Ids(chats);
    forall id | id in chats ensures EntryOk(chats[id]) {
      assert id in ids;
      var i :| 0 <= i < |ids| && ids[i] == id;
      assert EntryOk(chats[ids[i]]);
    }
    forall a, b | a in chats && b in chats && a != b
      ensures chats[a].customer == chats[b].customer ==> chats[a].tag != "" && chats[a].tag != chats[b].tag
      ensures chats[a].alias != "" ==> chats[a].alias != chats[b].alias
    {
      assert a in ids && b in ids;
      var i :| 0 <= i < |ids| && ids[i] == a;
      var j :| 0 <= j < |ids| && ids[j] == b;
      CountOfOne(chats, a);
      assert chats[ids[i]] == chats[a] && chats[ids[j]] == chats[b];
      if j < i { assert chats[b].alias != "" ==> chats[b].alias != chats[a].alias; }
    }
  }

  /** A label already taken was taken by another chat. */
  lemma TakenSlot(chats: Chats, ids: seq<int>, i: nat, seen: map<(string, string), int>)
    requires ids == Ids(chats) && i < |ids| && SeenOk(chats, ids, i, seen) && SlotOf(chats[ids[i]]) in seen
    ensures Explains(chats, SharedLabel(seen[SlotOf(chats[ids[i]])], ids[i]))
  {
    IdsMeans(chats);
    hide Ids;
    var k := SlotOf(chats[ids[i]]);
    var j :| 0 <= j < i && seen[k] == ids[j] && SlotOf(chats[ids[j]]) == k;
    assert ids[j] != ids[i] && ids[j] in chats;
  }

  /** An alias already taken was taken by another chat. */
  lemma TakenAlias(chats: Chats, ids: seq<int>, i: nat, aliases: map<string, int>)
    requires ids == Ids(chats) && i < |ids| && AliasesSeen(chats, ids, i, aliases)
    requires chats[ids[i]].alias != "" && chats[ids[i]].alias in aliases
    ensures Explains(chats, SharedAlias(aliases[chats[ids[i]].alias], ids[i]))
  {
    IdsMeans(chats);
    hide Ids;
    var a := chats[ids[i]].alias;
    var j :| 0 <= j < i && aliases[a] == ids[j] && chats[ids[j]].alias == a;
    assert ids[j] != ids[i] && ids[j] in chats;
  }

  lemma NextTag(chats: Chats, ids: seq<int>, i: nat, seen: map<(string, string), int>)
    requires AllIn(chats, ids) && i < |ids| && CheckedUpTo(chats, ids, i)
    requires SeenOk(chats, ids, i, seen) && SlotOf(chats[ids[i]]) !in seen
    ensures TagsDiffer(chats, ids, i + 1)
  {
    forall j | 0 <= j < i ensures SlotOf(chats[ids[j]]) != SlotOf(chats[ids[i]]) {
      assert SlotOf(chats[ids[j]]) in seen;
    }
  }

  lemma NextAlias(chats: Chats, ids: seq<int>, i: nat, aliases: map<string, int>)
    requires AllIn(chats, ids) && i < |ids| && CheckedUpTo(chats, ids, i)
    requires AliasesSeen(chats, ids, i, aliases)
    requires chats[ids[i]].alias != "" ==> chats[ids[i]].alias !in aliases
    ensures AliasesDiffer(chats, ids, i + 1)
  {
    forall j | 0 <= j < i && chats[ids[j]].alias != "" ensures chats[ids[j]].alias != chats[ids[i]].alias {
      assert chats[ids[j]].alias in aliases;
    }
  }

  lemma NextChecked(chats: Chats, ids: seq<int>, i: nat)
    requires AllIn(chats, ids) && i < |ids| && CheckedUpTo(chats, ids, i)
    requires EntryOk(chats[ids[i]])
    requires chats[ids[i]].tag == "" ==> CountIn(chats, ids, chats[ids[i]].customer) <= 1
    requires TagsDiffer(chats, ids, i + 1) && AliasesDiffer(chats, ids, i + 1)
    ensures CheckedUpTo(chats, ids, i + 1)
  {
    hide EntryOk, CountIn, TagsDiffer, AliasesDiffer;
  }

  /** One entry against the rules, given the labels and aliases taken by the ids before it. */
  method ValidateOne(
      chats: Chats, ids: seq<int>, i: nat, count: map<string, nat>, seen: map<(string, string), int>,
      aliases: map<string, int>)
    returns (p: Option<Problem>)
    requires ids == Ids(chats) && i < |ids| && CheckedUpTo(chats, ids, i)
    requires SeenOk(chats, ids, i, seen) && AliasesSeen(chats, ids, i, aliases)
    requires forall c :: Tally(count, c) == CountIn(chats, ids, c)
    ensures p.Some? ==> Explains(chats, p.value)
    ensures p.None? ==> CheckedUpTo(chats, ids, i + 1)
  {
    hide Ids, CheckedUpTo, SeenOk, AliasesSeen, TagsDiffer, AliasesDiffer, IsAlias, IsUsername, CountIn;
    var id := ids[i];
    var info := chats[id];
    CountOfOne(chats, id);
    if info.customer == "" { return Some(EmptyCustomer(id)); }
    if info.tag == "" && Tally(count, info.customer) > 1 { return Some(MissingLabel(id)); }
    if SlotOf(info) in seen {
      TakenSlot(chats, ids, i, seen);
      return Some(SharedLabel(seen[SlotOf(info)], id));
    }
    if info.alias != "" {
      if !IsAlias(info.alias) { return Some(BadAlias(id)); }
      if info.alias in aliases {
        TakenAlias(chats, ids, i, aliases);
        return Some(SharedAlias(aliases[info.alias], id));
      }
    }
    if info.username != "" {
      if !IsUsername(info.username) { return Some(BadUsername(id)); }
      if info.alias == "" { return Some(UsernameWithoutAlias(id)); }
    }
    NextTag(chats, ids, i, seen);
    NextAlias(chats, ids, i, aliases);
    NextChecked(chats, ids, i);
    p := None;
  }

  function Tally(count: map<string, nat>, customer: string): nat {
    if customer in count then count[customer] else 0
  }

  lemma CountNone(chats: Chats)
    ensures forall c :: CountIn(chats, [], c) == 0
  {
  }

  lemma CountNext(chats: Chats, ids: seq<int>, i: nat, customer: string)
    requires AllIn(chats, ids) && i < |ids|
    ensures CountIn(chats, ids[..i + 1], customer) ==
      CountIn(chats, ids[..i], customer) + (if chats[ids[i]].customer == customer then 1 else 0)
  {
    assert ids[..i + 1][..i] == ids[..i];
  }

  lemma TallyNext(chats: Chats, ids: seq<int>, more: seq<int>, i: nat, count: map<string, nat>, after: map<string, nat>)
    requires AllIn(chats, ids) && i < |ids| && more == ids[..i + 1]
    requires forall c :: Tally(count, c) == CountIn(chats, ids[..i], c)
    requires var c := chats[ids[i]].customer; after == count[c := Tally(count, c) + 1]
    ensures forall d :: Tally(after, d) == CountIn(chats, more, d)
  {
    hide CountIn;
    forall d ensures Tally(after, d) == CountIn(chats, more, d) {
      CountNext(chats, ids, i, d);
      assert Tally(count, d) == CountIn(chats, ids[..i], d);
    }
  }

  method CountCustomers(chats: Chats) returns (count: map<string, nat>)
    ensures forall c :: Tally(count, c) == CountIn(chats, Ids(chats), c)
  {
    hide Ids, CountIn;
    var ids := Ids(chats);
    count := map[];
    CountNone(chats);
    for i := 0 to |ids|
      invariant forall c :: Tally(count, c) == CountIn(chats, ids[..i], c)
    {
      var c := chats[ids[i]].customer;
      ghost var before := count;
      count := count[c := Tally(count, c) + 1];
      TallyNext(chats, ids, ids[..i + 1], i, before, count);
    }
    assert ids[..|ids|] == ids;
  }

  function SlotOf(info: ChatInfo): (string, string) { (info.customer, info.tag) }

  /** The labels taken by the first `n` ids, each with the id that took it. */
  ghost predicate SeenOk(chats: Chats, ids: seq<int>, n: nat, seen: map<(string, string), int>)
    requires n <= |ids| && AllIn(chats, ids)
  {
    && (forall k :: k in seen ==> exists j :: 0 <= j < n && seen[k] == ids[j] && SlotOf(chats[ids[j]]) == k)
    && (forall j :: 0 <= j < n ==> SlotOf(chats[ids[j]]) in seen)
  }

  /** The aliases taken by the first `n` ids. */
  ghost predicate AliasesSeen(chats: Chats, ids: seq<int>, n: nat, aliases: map<string, int>)
    requires n <= |ids| && AllIn(chats, ids)
  {
    && (forall a :: a in aliases ==> exists j :: 0 <= j < n && aliases[a] == ids[j] && chats[ids[j]].alias == a)
    && (forall j :: 0 <= j < n && chats[ids[j]].alias != "" ==> chats[ids[j]].alias in aliases)
  }

  lemma SeeOne(chats: Chats, ids: seq<int>, n: nat, seen: map<(string, string), int>, aliases: map<string, int>)
    requires n < |ids| && AllIn(chats, ids) && SeenOk(chats, ids, n, seen) && AliasesSeen(chats, ids, n, aliases)
    ensures SeenOk(chats, ids, n + 1, seen[SlotOf(chats[ids[n]]) := ids[n]])
    ensures var alias := chats[ids[n]].alias;
      AliasesSeen(chats, ids, n + 1, if alias != "" then aliases[alias := ids[n]] else aliases)
  {
    var more := seen[SlotOf(chats[ids[n]]) := ids[n]];
    forall k | k in more ensures exists j :: 0 <= j < n + 1 && more[k] == ids[j] && SlotOf(chats[ids[j]]) == k {
      if k == SlotOf(chats[ids[n]]) {
        assert more[k] == ids[n];
      } else {
        var j :| 0 <= j < n && seen[k] == ids[j] && SlotOf(chats[ids[j]]) == k;
        assert more[k] == ids[j];
      }
    }
  }

  ghost predicate Progress(
      chats: Chats, ids: seq<int>, n: nat, seen: map<(string, string), int>, aliases: map<string, int>)
    requires n <= |ids| && AllIn(chats, ids)
  {
    CheckedUpTo(chats, ids, n) && SeenOk(chats, ids, n, seen) && AliasesSeen(chats, ids, n, aliases)
  }

  /** One turn of the loop of validate: a problem, or the entry's label and alias are taken. */
  method Turn(
      chats: Chats, ids: seq<int>, i: nat, count: map<string, nat>, seen: map<(string, string), int>,
      aliases: map<string, int>)
    returns (p: Option<Problem>, seen': map<(string, string), int>, aliases': map<string, int>)
    requires ids == Ids(chats) && i < |ids| && Progress(chats, ids, i, seen, aliases)
    requires forall c :: Tally(count, c) == CountIn(chats, ids, c)
    ensures p.Some? ==> Explains(chats, p.value)
    ensures p.None? ==> Progress(chats, ids, i + 1, seen', aliases')
  {
    hide Ids, CheckedUpTo, SeenOk, AliasesSeen, Explains;
    seen', aliases' := seen, aliases;
    p := ValidateOne(chats, ids, i, count, seen, aliases);
    if p.Some? { return; }
    SeeOne(chats, ids, i, seen, aliases);
    seen' := seen[SlotOf(chats[ids[i]]) := ids[i]];
    aliases' := if chats[ids[i]].alias != "" then aliases[chats[ids[i]].alias := ids[i]] else aliases;
  }

  lemma NoneChecked(chats: Chats, ids: seq<int>)
    requires AllIn(chats, ids)
    ensures Progress(chats, ids, 0, map[], map[])
  {
  }

  /** The loop of validate over the ids in order, stopping at the first problem. */
  method FindProblem(chats: Chats, ids: seq<int>, count: map<string, nat>) returns (p: Option<Problem>)
    requires ids == Ids(chats) && forall c :: Tally(count, c) == CountIn(chats, ids, c)
    ensures p.Some? ==> Explains(chats, p.value)
    ensures p.None? ==> CheckedUpTo(chats, ids, |ids|)
  {
    hide Ids, CheckedUpTo, SeenOk, AliasesSeen, Explains;
    var seen: map<(string, string), int> := map[];
    var aliases: map<string, int> := map[];
    NoneChecked(chats, ids);
    for i := 0 to |ids|
      invariant Progress(chats, ids, i, seen, aliases)
    {
      p, seen, aliases := Turn(chats, ids, i, count, seen, aliases);
      if p.Some? { return; }
    }
    p := None;
  }

  /** No problem exactly when the map meets the rules; a reported problem is really there. */
  method Validate(chats: Chats) returns (p: Option<Problem>)
    ensures p.None? <==> MapOk(chats)
    ensures p.Some? ==> Explains(chats, p.value)
  {
    hide Ids, CheckedUpTo, MapOk, Explains;
    var count := CountCustomers(chats);
    p := FindProblem(chats, Ids(chats), count);
    if p.Some? { ProblemMeansBad(chats, p.value); } else { CheckedAll(chats); }
  }

  // ----- addressing -----

  datatype Resolution = Found(id: int) | UnknownCustomer | Ambiguous | UnknownLabel

  /** The ids of a customer's chats, in the order given. */
  function Owned(chats: Chats, ids: seq<int>, customer: string): (r: seq<int>)
    requires AllIn(chats, ids)
    ensures AllIn(chats, r)
  {
    if ids == [] then []
    else
      var n := |ids| - 1;
      Owned(chats, ids[..n], customer) + (if chats[ids[n]].customer == customer then [ids[n]] else [])
  }

  lemma {:induction false} OwnedMeans(chats: Chats, ids: seq<int>, customer: string)
    requires AllIn(chats, ids)
    ensures forall id :: id in Owned(chats, ids, customer) <==>
      id in ids && id in chats && chats[id].customer == customer
    ensures |Owned(chats, ids, customer)| == CountIn(chats, ids, customer)
  {
    if ids != [] {
      var n := |ids| - 1;
      OwnedMeans(chats, ids[..n], customer);
      assert ids == ids[..n] + [ids[n]];
    }
  }

  lemma OwnedNext(chats: Chats, ids: seq<int>, i: nat, customer: string)
    requires AllIn(chats, ids) && i < |ids|
    ensures Owned(chats, ids[..i + 1], customer) ==
      Owned(chats, ids[..i], customer) + (if chats[ids[i]].customer == customer then [ids[i]] else [])
  {
    assert ids[..i + 1][..i] == ids[..i];
  }

  /** Go's order of strings. */
  predicate Less(a: string, b: string) {
    b != "" && (a == "" || a[0] < b[0] || (a[0] == b[0] && Less(a[1..], b[1..])))
  }

  /** At the first difference the smaller character comes first; a string comes before its extensions. */
  lemma {:induction false} LessIff(a: string, b: string)
    ensures Less(a, b) <==> exists k :: LessAt(a, b, k)
  {
    if a != "" && b != "" && a[0] == b[0] {
      LessIff(a[1..], b[1..]);
      if k :| LessAt(a[1..], b[1..], k) { assert LessAt(a, b, k + 1) by { PrefixUp(a, b, k); } }
      if k :| LessAt(a, b, k) { PrefixDown(a, b, k); }
    } else {
      if b != "" && (a == "" || a[0] < b[0]) { assert LessAt(a, b, 0); }
      assert forall k :: LessAt(a, b, k) && k > 0 ==> a[..k][0] == a[0] && b[..k][0] == b[0];
    }
  }

  predicate LessAt(a: string, b: string, k: int) {
    0 <= k <= |a| && k < |b| && a[..k] == b[..k] && (k == |a| || a[k] < b[k])
  }

  lemma PrefixUp(a: string, b: string, k: nat)
    requires a != "" && b != "" && a[0] == b[0] && LessAt(a[1..], b[1..], k)
    ensures LessAt(a, b, k + 1)
  {
    assert a[..k + 1] == [a[0]] + a[1..][..k] && b[..k + 1] == [b[0]] + b[1..][..k];
  }

  lemma PrefixDown(a: string, b: string, k: nat)
    requires a != "" && b != "" && a[0] == b[0] && LessAt(a, b, k)
    ensures LessAt(a[1..], b[1..], k - 1)
  {
    assert a[1..][..k - 1] == a[..k][1..] && b[1..][..k - 1] == b[..k][1..];
  }

  lemma {:induction false} LessIsTotal(a: string, b: string)
    ensures a == b || Less(a, b) || Less(b, a)
    ensures !(Less(a, b) && Less(b, a)) && (Less(a, b) ==> a != b)
  {
    if a != "" && b != "" && a[0] == b[0] {
      LessIsTotal(a[1..], b[1..]);
      assert a == [a[0]] + a[1..] && b == [b[0]] + b[1..];
    }
  }

  lemma {:induction false} LessIsTransitive(a: string, b: string, c: string)
    requires Less(a, b) && Less(b, c)
    ensures Less(a, c)
  {
    if a != "" && a[0] == b[0] == c[0] { LessIsTransitive(a[1..], b[1..], c[1..]); }
  }

  /** By label, then by id. */
  predicate ListedBefore(chats: Chats, a: int, b: int)
    requires a in chats && b in chats
  {
    if chats[a].tag != chats[b].tag then Less(chats[a].tag, chats[b].tag) else a < b
  }

  ghost predicate Listed(chats: Chats, of: seq<int>)
    requires AllIn(chats, of)
  {
    forall i, j :: 0 <= i < j < |of| ==> ListedBefore(chats, of[i], of[j])
  }

  function Place(chats: Chats, of: seq<int>, id: int): (r: seq<int>)
    requires AllIn(chats, of) && id in chats
    ensures AllIn(chats, r)
  {
    if of == [] || ListedBefore(chats, id, of[0]) then [id] + of else [of[0]] + Place(chats, of[1..], id)
  }

  function ByLabel(chats: Chats, of: seq<int>): (r: seq<int>)
    requires AllIn(chats, of)
    ensures AllIn(chats, r)
  {
    if of == [] then [] else Place(chats, ByLabel(chats, of[1..]), of[0])
  }

  lemma ListedBeforeAll(chats: Chats, of: seq<int>, id: int)
    requires AllIn(chats, of) && of != [] && Listed(chats, of) && id in chats && ListedBefore(chats, id, of[0])
    ensures Listed(chats, [id] + of)
  {
    var all := [id] + of;
    forall i, j | 0 <= i < j < |all| ensures ListedBefore(chats, all[i], all[j]) {
      if i == 0 && j > 1 {
        assert ListedBefore(chats, of[0], of[j - 1]);
        LessIsTotal(chats[id].tag, chats[of[0]].tag);
        LessIsTotal(chats[of[0]].tag, chats[of[j - 1]].tag);
        if Less(chats[id].tag, chats[of[0]].tag) && Less(chats[of[0]].tag, chats[of[j - 1]].tag) {
          LessIsTransitive(chats[id].tag, chats[of[0]].tag, chats[of[j - 1]].tag);
          LessIsTotal(chats[id].tag, chats[of[j - 1]].tag);
        }
      }
    }
  }

  lemma {:induction false} PlaceMeans(chats: Chats, of: seq<int>, id: int)
    requires AllIn(chats, of) && id in chats
    ensures |Place(chats, of, id)| == |of| + 1
    ensures forall x :: x in Place(chats, of, id) <==> x == id || x in of
    ensures Listed(chats, of) && id !in of ==> Listed(chats, Place(chats, of, id))
  {
    if of == [] {
    } else if ListedBefore(chats, id, of[0]) {
      if Listed(chats, of) { ListedBeforeAll(chats, of, id); }
    } else {
      var rest := of[1..];
      assert of == [of[0]] + rest;
      PlaceMeans(chats, rest, id);
      if Listed(chats, of) && id !in of {
        LessIsTotal(chats[id].tag, chats[of[0]].tag);
        var placed := Place(chats, rest, id);
        assert Listed(chats, placed) by { assert forall i :: 0 <= i < |rest| ==> rest[i] == of[i + 1]; }
        forall i | 0 <= i < |placed| ensures ListedBefore(chats, of[0], placed[i]) {
          assert placed[i] in placed;
          if placed[i] != id {
            var j :| 0 <= j < |rest| && rest[j] == placed[i];
            assert ListedBefore(chats, of[0], of[j + 1]);
          }
        }
      }
    }
  }

  lemma {:induction false} ByLabelMeans(chats: Chats, of: seq<int>)
    requires AllIn(chats, of)
    ensures |ByLabel(chats, of)| == |of|
    ensures forall x :: x in ByLabel(chats, of) <==> x in of
    ensures (forall i, j :: 0 <= i < j < |of| ==> of[i] != of[j]) ==> Listed(chats, ByLabel(chats, of))
  {
    if of != [] {
      assert of == [of[0]] + of[1..];
      ByLabelMeans(chats, of[1..]);
      PlaceMeans(chats, ByLabel(chats, of[1..]), of[0]);
    }
  }

  /** ByCustomer: ordered by label. */
  function OfCustomer(chats: Chats, customer: string): (r: seq<int>)
    ensures AllIn(chats, r)
  {
    ByLabel(chats, Owned(chats, Ids(chats), customer))
  }

  lemma {:induction false} OwnedDistinct(chats: Chats, ids: seq<int>, customer: string)
    requires AllIn(chats, ids) && forall i, j :: 0 <= i < j < |ids| ==> ids[i] < ids[j]
    ensures forall i, j :: 0 <= i < j < |Owned(chats, ids, customer)| ==>
      Owned(chats, ids, customer)[i] != Owned(chats, ids, customer)[j]
  {
    if ids != [] {
      var n := |ids| - 1;
      OwnedDistinct(chats, ids[..n], customer);
      OwnedMeans(chats, ids[..n], customer);
      hide Owned, CountIn;
      var before := Owned(chats, ids[..n], customer);
      forall i | 0 <= i < |before| ensures before[i] != ids[n] {
        assert before[i] in before;
        var k :| 0 <= k < n && ids[..n][k] == before[i];
        assert ids[k] < ids[n];
      }
    }
  }

  /** Exactly the customer's chats, each once, ordered by label and then id. */
  lemma OfCustomerMeans(chats: Chats, customer: string)
    ensures forall id :: id in OfCustomer(chats, customer) <==> id in chats && chats[id].customer == customer
    ensures |OfCustomer(chats, customer)| == CountIn(chats, Ids(chats), customer)
    ensures Listed(chats, OfCustomer(chats, customer))
    ensures var of := OfCustomer(chats, customer);
      forall i, j :: 0 <= i < j < |of| ==>
        Less(chats[of[i]].tag, chats[of[j]].tag) || (chats[of[i]].tag == chats[of[j]].tag && of[i] < of[j])
  {
    IdsMeans(chats);
    hide Ids;
    OwnedMeans(chats, Ids(chats), customer);
    OwnedDistinct(chats, Ids(chats), customer);
    ByLabelMeans(chats, Owned(chats, Ids(chats), customer));
  }

  method ByCustomer(chats: Chats, customer: string) returns (r: seq<int>)
    ensures r == OfCustomer(chats, customer)
  {
    hide Ids;
    var ids := Ids(chats);
    r := [];
    for i := 0 to |ids|
      invariant r == Owned(chats, ids[..i], customer)
    {
      OwnedNext(chats, ids, i, customer);
      hide Owned;
      if chats[ids[i]].customer == customer { r := r + [ids[i]]; }
    }
    assert ids[..|ids|] == ids;
    r := ByLabel(chats, r);
  }

  /** singleChat: the customer's only group without a label, otherwise the one carrying it. */
  method SingleChat(chats: Chats, customer: string, tag: string) returns (r: Resolution)
    ensures r == Resolve(chats, customer, tag)
  {
    var of := ByCustomer(chats, customer);
    if of == [] { return UnknownCustomer; }
    if tag == "" {
      return if |of| == 1 then Found(of[0]) else Ambiguous;
    }
    for i := 0 to |of|
      invariant Labeled(chats, of[i..], tag) == Labeled(chats, of, tag)
    {
      assert of[i..][1..] == of[i + 1..];
      assert of[i] in of;
      if chats[of[i]].tag == tag { return Found(of[i]); }
    }
    r := UnknownLabel;
  }

  function Labeled(chats: Chats, of: seq<int>, tag: string): Resolution
    requires AllIn(chats, of)
  {
    if of == [] then UnknownLabel
    else if chats[of[0]].tag == tag then Found(of[0])
    else Labeled(chats, of[1..], tag)
  }

  function Resolve(chats: Chats, customer: string, tag: string): Resolution {
    var of := OfCustomer(chats, customer);
    if of == [] then UnknownCustomer
    else if tag == "" then (if |of| == 1 then Found(of[0]) else Ambiguous)
    else Labeled(chats, of, tag)
  }

  /** chatNamer: the label is left out for a customer with a single group. */
  function NameOf(chats: Chats, id: int): (string, string) {
    if id !in chats then ("", "")
    else if CountIn(chats, Ids(chats), chats[id].customer) > 1 then (chats[id].customer, chats[id].tag)
    else (chats[id].customer, "")
  }

  /** Another chat of the same customer. */
  ghost predicate HasOther(chats: Chats, id: int)
    requires id in chats
  {
    exists other :: other in chats && other != id && chats[other].customer == chats[id].customer
  }

  method ChatName(chats: Chats, id: int) returns (customer: string, tag: string)
    ensures (customer, tag) == NameOf(chats, id)
    ensures id !in chats ==> customer == "" && tag == ""
    ensures id in chats ==>
      && customer == chats[id].customer
      && tag == (if HasOther(chats, id) then chats[id].tag else "")
  {
    if id in chats { CountOfOne(chats, id); }
    var groups := CountCustomers(chats);
    if id !in chats { return "", ""; }
    if Tally(groups, chats[id].customer) > 1 { return chats[id].customer, chats[id].tag; }
    return chats[id].customer, "";
  }

  lemma {:induction false} LabeledFinds(chats: Chats, of: seq<int>, id: int)
    requires AllIn(chats, of)
    requires id in of && forall x :: x in of && x != id ==> chats[x].tag != chats[id].tag
    ensures Labeled(chats, of, chats[id].tag) == Found(id)
  {
    if of[0] != id {
      assert of[0] in of;
      LabeledFinds(chats, of[1..], id);
    }
  }

  lemma {:induction false} LabeledIsFirst(chats: Chats, of: seq<int>, tag: string)
    requires AllIn(chats, of)
    ensures Labeled(chats, of, tag).Found? ==>
      Labeled(chats, of, tag).id in of && chats[Labeled(chats, of, tag).id].tag == tag
  {
    if of != [] && chats[of[0]].tag != tag { LabeledIsFirst(chats, of[1..], tag); }
  }

  /** Every chat is what its printed address resolves to. */
  ghost predicate Addressable(chats: Chats) {
    forall id :: id in chats ==> Resolve(chats, NameOf(chats, id).0, NameOf(chats, id).1) == Found(id)
  }

  lemma ResolvesBack(chats: Chats, id: int)
    requires LabelsOk(chats) && id in chats
    ensures Resolve(chats, NameOf(chats, id).0, NameOf(chats, id).1) == Found(id)
  {
    hide Ids, OfCustomer, CountIn;
    IdsMeans(chats);
    var c := chats[id].customer;
    var of := OfCustomer(chats, c);
    OfCustomerMeans(chats, c);
    assert id in Ids(chats) && id in of;
    CountOfOne(chats, id);
    if CountIn(chats, Ids(chats), c) > 1 {
      forall x | x in of && x != id ensures chats[x].tag != chats[id].tag { assert x in chats; }
      LabeledFinds(chats, of, id);
    } else {
      assert |of| == 1 && of[0] == id;
    }
  }

  lemma AddressedLabels(chats: Chats, a: int, b: int)
    requires a in chats && b in chats && a != b && chats[a].customer == chats[b].customer
    requires Resolve(chats, NameOf(chats, a).0, NameOf(chats, a).1) == Found(a)
    requires Resolve(chats, NameOf(chats, b).0, NameOf(chats, b).1) == Found(b)
    ensures chats[a].tag != "" && chats[a].tag != chats[b].tag
  {
    var c := chats[a].customer;
    CountOfOne(chats, a);
    NamesInFull(chats, a);
    NamesInFull(chats, b);
    if chats[a].tag == "" { AmbiguousUnlabeled(chats, c); }
  }

  lemma NamesInFull(chats: Chats, id: int)
    requires id in chats && CountIn(chats, Ids(chats), chats[id].customer) > 1
    ensures NameOf(chats, id) == (chats[id].customer, chats[id].tag)
  {
  }

  lemma AmbiguousUnlabeled(chats: Chats, customer: string)
    requires CountIn(chats, Ids(chats), customer) > 1
    ensures Resolve(chats, customer, "") == Ambiguous
  {
    OfCustomerMeans(chats, customer);
  }

  /**
   Addressing is invertible exactly under validate's label rules: every allowlisted chat is what the
   customer and label printed for it resolve to, if and only if no customer with several chats leaves
   one unlabeled or uses a label twice.
   */
  lemma AddressingInvertible(chats: Chats)
    ensures Addressable(chats) <==> LabelsOk(chats)
  {
    if LabelsOk(chats) {
      forall id | id in chats ensures Resolve(chats, NameOf(chats, id).0, NameOf(chats, id).1) == Found(id) {
        ResolvesBack(chats, id);
      }
    }
    if Addressable(chats) {
      forall a, b | a in chats && b in chats && a != b && chats[a].customer == chats[b].customer
        ensures chats[a].tag != "" && chats[a].tag != chats[b].tag
      {
        assert Resolve(chats, NameOf(chats, a).0, NameOf(chats, a).1) == Found(a);
        assert Resolve(chats, NameOf(chats, b).0, NameOf(chats, b).1) == Found(b);
        AddressedLabels(chats, a, b);
      }
    }
  }

  /** What an address may resolve to: the customer's only chat, or the one of its chats with the label. */
  predicate Addresses(chats: Chats, customer: string, tag: string, id: int) {
    && id in chats && chats[id].customer == customer
    && (if tag != "" then chats[id].tag == tag
        else forall other :: other in chats && chats[other].customer == customer ==> other == id)
  }

  lemma OnlyOne(chats: Chats, of: seq<int>, customer: string, id: int)
    requires AllIn(chats, of) && Listed(chats, of)
    requires forall x :: x in of <==> x in chats && chats[x].customer == customer
    ensures of == [id] <==> Addresses(chats, customer, "", id)
  {
    assert of == [id] ==> id in of;
    assert |of| <= 1 || of[0] != of[1] by { assert |of| <= 1 || ListedBefore(chats, of[0], of[1]); }
    if Addresses(chats, customer, "", id) {
      assert id in of;
      assert forall i :: 0 <= i < |of| ==> of[i] in of;
    }
  }

  /** Which error an address that finds nothing gets. */
  lemma ErrorsIff(chats: Chats, customer: string, tag: string)
    ensures Resolve(chats, customer, tag) == UnknownCustomer <==>
      forall id :: id in chats ==> chats[id].customer != customer
    ensures Resolve(chats, customer, tag) == Ambiguous <==>
      && tag == ""
      && exists a, b :: a in chats && b in chats && a != b && chats[a].customer == chats[b].customer == customer
    ensures Resolve(chats, customer, tag) == UnknownLabel <==>
      && tag != "" && (exists id :: id in chats && chats[id].customer == customer)
      && forall id :: id in chats && chats[id].customer == customer ==> chats[id].tag != tag
  {
    var of := OfCustomer(chats, customer);
    OfCustomerMeans(chats, customer);
    hide OfCustomer, Ids, CountIn;
    EmptyOrSome(of);
    assert of != [] ==> of[0] in of;
    assert |of| > 1 ==> of[0] in of && of[1] in of && ListedBefore(chats, of[0], of[1]);
    assert |of| == 1 ==> forall x :: x in of ==> x == of[0];
    LabeledMisses(chats, of, tag);
  }

  lemma {:induction false} LabeledMisses(chats: Chats, of: seq<int>, tag: string)
    requires AllIn(chats, of)
    ensures Labeled(chats, of, tag).Found? || Labeled(chats, of, tag) == UnknownLabel
    ensures Labeled(chats, of, tag) == UnknownLabel <==> forall x :: x in of ==> chats[x].tag != tag
  {
    if of != [] {
      LabeledMisses(chats, of[1..], tag);
      assert of == [of[0]] + of[1..];
    }
  }

  /**
   Under validate's label rules an address resolves to a chat exactly when it is that chat's own: nobody
   reaches another customer's chat, or another label's.
   */
  lemma ResolvesIff(chats: Chats, customer: string, tag: string, id: int)
    requires LabelsOk(chats)
    ensures Resolve(chats, customer, tag) == Found(id) <==> Addresses(chats, customer, tag, id)
  {
    var of := OfCustomer(chats, customer);
    OfCustomerMeans(chats, customer);
    hide OfCustomer, Ids, CountIn;
    if tag == "" {
      OnlyOne(chats, of, customer, id);
    } else {
      LabeledIsFirst(chats, of, tag);
      if Addresses(chats, customer, tag, id) {
        assert id in of;
        LabeledFinds(chats, of, id);
      }
    }
  }

  /** No two chats of an accepted map share an address. */
  lemma AddressesAreUnique(chats: Chats, a: int, b: int)
    requires MapOk(chats) && a in chats && b in chats && NameOf(chats, a) == NameOf(chats, b)
    ensures a == b
  {
    ResolvesBack(chats, a);
    ResolvesBack(chats, b);
  }

  /** ByPublic: an empty name never matches. */
  method ByPublic(chats: Chats, name: string) returns (r: Option<int>)
    ensures r.None? <==> name == "" || forall id :: id in chats ==> chats[id].alias != name
    ensures r.Some? ==> r.value in chats && chats[r.value].alias == name
    ensures MapOk(chats) ==> forall id :: id in chats && chats[id].alias == name && name != "" ==> r == Some(id)
  {
    if name == "" { return None; }
    IdsMeans(chats);
    var ids := Ids(chats);
    for i := 0 to |ids|
      invariant forall j :: 0 <= j < i ==> chats[ids[j]].alias != name
    {
      if chats[ids[i]].alias == name { return Some(ids[i]); }
    }
    IdsMeans(chats);
    r := None;
  }
}
