/**
 Queries over bottles that have several digests: counting pulls, asking for parts, and leaving out what is
 deprecated.
*/
module Queries {
  import opened Types
  import opened Store
  import opened Invariant
  import opened History
  import opened Puts

  // ---------- counting ----------

  function Count<T>(xs: seq<T>, p: T -> bool): nat {
    if xs == [] then 0 else Count(xs[..|xs| - 1], p) + if p(xs[|xs| - 1]) then 1 else 0
  }

  predicate IsPull(row: Row) {
    row.detail.EventDetail? && row.detail.event.action == "pull"
  }

  function AnyPull(): Row -> bool {
    row => IsPull(row)
  }

  /** `action = 'pull' AND bottle_digest = ?` */
  function PullOfDigest(d: Digest): Row -> bool {
    row => IsPull(row) && row.detail.eventBottleDigest == d
  }

  function PullOfBottle(b: nat): Row -> bool {
    row => IsPull(row) && row.detail.eventBottleId == b
  }

  function PullByUser(d: Digest, username: string): Row -> bool {
    row => IsPull(row) && row.detail.eventBottleDigest == d && row.detail.event.username == username
  }

  function BottlePulls(events: seq<Row>, d: Digest): nat {
    Count(events, PullOfDigest(d))
  }

  lemma {:induction false} CountIsPositive<T>(xs: seq<T>, p: T -> bool)
    ensures Count(xs, p) > 0 <==> exists i :: 0 <= i < |xs| && p(xs[i])
  {
    if xs != [] {
      CountIsPositive(xs[..|xs| - 1], p);
      if p(xs[|xs| - 1]) {
      } else if Count(xs, p) > 0 {
        var i :| 0 <= i < |xs| - 1 && p(xs[..|xs| - 1][i]);
        assert p(xs[i]);
      } else {
        assert forall i :: 0 <= i < |xs| - 1 ==> xs[i] == xs[..|xs| - 1][i];
      }
    }
  }

  // ---------- the number of pulls of a bottle ----------

  /** The subquery: pulls counted by bottle, with a row only for the bottles that have some. */
  function PullsTable(events: seq<Row>): map<nat, nat> {
    map b | b in (set e | e in events && IsPull(e) :: e.detail.eventBottleId) :: Count(events, PullOfBottle(b))
  }

  function Coalesced(pulls: map<nat, nat>, b: nat): nat {
    if b in pulls then pulls[b] else 0
  }

  /**
   MAX over the group of one bottle. `joined` is the column of bottle ids after all other joins, which
   repeat a bottle any number of times.
  */
  function NumPulls(events: seq<Row>, joined: seq<nat>, b: nat): nat {
    if joined == [] then 0
    else
      var rest := NumPulls(events, joined[1..], b);
      if joined[0] == b && Coalesced(PullsTable(events), b) > rest then Coalesced(PullsTable(events), b) else rest
  }

  lemma CoalescedIsCount(events: seq<Row>, b: nat)
    ensures Coalesced(PullsTable(events), b) == Count(events, PullOfBottle(b))
  {
    CountIsPositive(events, PullOfBottle(b));
    if Count(events, PullOfBottle(b)) > 0 {
      var i :| 0 <= i < |events| && PullOfBottle(b)(events[i]);
      assert events[i] in events;
    }
  }

  lemma {:induction false} FanOutIsHarmless(events: seq<Row>, joined: seq<nat>, b: nat)
    ensures NumPulls(events, joined, b) == if b in joined then Count(events, PullOfBottle(b)) else 0
  {
    CoalescedIsCount(events, b);
    if joined != [] {
      FanOutIsHarmless(events, joined[1..], b);
      assert b in joined <==> joined[0] == b || b in joined[1..];
    }
  }

  /** The sum of `BottlePulls` over the aliases of some data. */
  function AliasPulls(digests: seq<DigestRow>, events: seq<Row>, dataId: nat): nat {
    if digests == [] then 0
    else
      var last := digests[|digests| - 1];
      AliasPulls(digests[..|digests| - 1], events, dataId)
      + if last.dataId == dataId then BottlePulls(events, last.digest) else 0
  }

  lemma {:induction false} NoEvents(digests: seq<DigestRow>, dataId: nat)
    ensures AliasPulls(digests, [], dataId) == 0
  {
    if digests != [] {
      NoEvents(digests[..|digests| - 1], dataId);
    }
  }

  /** One more event counts for each alias that it names, and it names at most one. */
  lemma {:induction false} OneMoreEvent(digests: seq<DigestRow>, events: seq<Row>, e: Row, dataId: nat)
    requires forall i, j :: 0 <= i < j < |digests| ==> digests[i].digest != digests[j].digest
    ensures AliasPulls(digests, events + [e], dataId)
         == AliasPulls(digests, events, dataId)
            + if IsPull(e) && DigestRow(dataId, e.detail.eventBottleDigest) in digests then 1 else 0
  {
    if digests != [] {
      var init, last := digests[..|digests| - 1], digests[|digests| - 1];
      OneMoreEvent(init, events, e, dataId);
      assert (events + [e])[..|events|] == events;
      assert digests == init + [last];
      assert DigestRow(dataId, last.digest) !in init;
    }
  }

  /** An event belongs to a bottle exactly when the digest it names is an alias of that bottle. */
  lemma EventNamesItsBottle(w: World, s: Store, e: nat, b: nat)
    requires Valid(w, s) && e < |s.tables[Event]| && b < |s.tables[Bottle]|
    ensures s.tables[Event][e].detail.EventDetail?
    ensures s.tables[Event][e].detail.eventBottleId == b
       <==> DigestRow(s.tables[Bottle][b].dataId, s.tables[Event][e].detail.eventBottleDigest) in s.digests
  {
    EventLinks(w, s, e);
    assert ValidRows(w, s, Bottle);
    var row := s.tables[Event][e];
    var bottles := s.tables[Bottle];
    if DigestRow(bottles[b].dataId, row.detail.eventBottleDigest) in s.digests {
      var i :| 0 <= i < |s.digests| && s.digests[i] == DigestRow(bottles[b].dataId, row.detail.eventBottleDigest);
      var j :| 0 <= j < |s.digests|
               && s.digests[j] == DigestRow(bottles[row.detail.eventBottleId].dataId, row.detail.eventBottleDigest);
      assert i == j;
    }
  }

  lemma {:induction false} PullsUpTo(w: World, s: Store, b: nat, k: nat)
    requires Valid(w, s) && b < |s.tables[Bottle]| && k <= |s.tables[Event]|
    ensures Count(s.tables[Event][..k], PullOfBottle(b))
           == AliasPulls(s.digests, s.tables[Event][..k], s.tables[Bottle][b].dataId)
  {
    var events := s.tables[Event];
    if k == 0 {
      NoEvents(s.digests, s.tables[Bottle][b].dataId);
    } else {
      PullsUpTo(w, s, b, k - 1);
      EventNamesItsBottle(w, s, k - 1, b);
      OneMoreEvent(s.digests, events[..k - 1], events[k - 1], s.tables[Bottle][b].dataId);
      assert events[..k] == events[..k - 1] + [events[k - 1]];
      assert events[..k][..k - 1] == events[..k - 1];
    }
  }

  /** `num_pulls` is the sum of the pulls under all digests of the bottle, however often the joins repeat it. */
  lemma PullsAreConserved(w: World, s: Store, b: nat, joined: seq<nat>)
    requires Valid(w, s) && b < |s.tables[Bottle]| && b in joined
    ensures NumPulls(s.tables[Event], joined, b) == AliasPulls(s.digests, s.tables[Event], s.tables[Bottle][b].dataId)
  {
    FanOutIsHarmless(s.tables[Event], joined, b);
    PullsUpTo(w, s, b, |s.tables[Event]|);
    assert s.tables[Event][..|s.tables[Event]|] == s.tables[Event];
  }

  function SumOfPulls(events: seq<Row>, joined: seq<nat>, bottles: nat): nat {
    if bottles == 0 then 0 else SumOfPulls(events, joined, bottles - 1) + NumPulls(events, joined, bottles - 1)
  }

  function CountBelow(events: seq<Row>, bottles: nat): nat {
    Count(events, row => IsPull(row) && row.detail.eventBottleId < bottles)
  }

  lemma {:induction false} SplitLastBottle(events: seq<Row>, bottles: nat)
    ensures CountBelow(events, bottles + 1) == CountBelow(events, bottles) + Count(events, PullOfBottle(bottles))
  {
    if events != [] {
      SplitLastBottle(events[..|events| - 1], bottles);
    }
  }

  lemma {:induction false} SumIsCountBelow(events: seq<Row>, joined: seq<nat>, bottles: nat)
    requires forall b: nat | b < bottles :: b in joined
    ensures SumOfPulls(events, joined, bottles) == CountBelow(events, bottles)
  {
    if bottles == 0 {
      CountIsPositive(events, row => IsPull(row) && row.detail.eventBottleId < 0);
    } else {
      SumIsCountBelow(events, joined, bottles - 1);
      FanOutIsHarmless(events, joined, bottles - 1);
      SplitLastBottle(events, bottles - 1);
    }
  }

  lemma {:induction false} SameCount<T>(xs: seq<T>, p: T -> bool, q: T -> bool)
    requires forall x | x in xs :: p(x) == q(x)
    ensures Count(xs, p) == Count(xs, q)
  {
    if xs != [] {
      SameCount(xs[..|xs| - 1], p, q);
    }
  }

  /** Over all bottles, every pull event is counted once. */
  lemma EveryPullIsCountedOnce(w: World, s: Store, joined: seq<nat>)
    requires Valid(w, s) && forall b: nat | b < |s.tables[Bottle]| :: b in joined
    ensures SumOfPulls(s.tables[Event], joined, |s.tables[Bottle]|) == Count(s.tables[Event], AnyPull())
  {
    var events, bottles := s.tables[Event], |s.tables[Bottle]|;
    SumIsCountBelow(events, joined, bottles);
    var below := (row: Row) => IsPull(row) && row.detail.eventBottleId < bottles;
    forall e | e in events ensures below(e) == AnyPull()(e) {
      var i :| 0 <= i < |events| && events[i] == e;
      EventLinks(w, s, i);
    }
    SameCount(events, below, AnyPull());
    SameCount(events, below, row => IsPull(row) && row.detail.eventBottleId < bottles);
  }

  // ---------- one event more ----------

  lemma CountOneMore<T>(xs: seq<T>, x: T, p: T -> bool)
    ensures Count(xs + [x], p) == Count(xs, p) + if p(x) then 1 else 0
    ensures Count([], p) == 0
  {
    assert (xs + [x])[..|xs|] == xs;
  }

  /** One event more counts for the digest it names if its action is a pull. */
  lemma OneMorePull(events: seq<Row>, e: Row, d: Digest)
    ensures BottlePulls([], d) == 0
    ensures BottlePulls(events + [e], d)
         == BottlePulls(events, d)
            + if e.detail.EventDetail? && e.detail.event.action == "pull" && e.detail.eventBottleDigest == d then 1
              else 0
  {
    CountOneMore(events, e, PullOfDigest(d));
  }

  /** And for its bottle. */
  lemma OneMoreOfBottle(events: seq<Row>, e: Row, joined: seq<nat>, b: nat)
    requires b in joined
    ensures NumPulls([], joined, b) == 0
    ensures NumPulls(events + [e], joined, b)
         == NumPulls(events, joined, b)
            + if e.detail.EventDetail? && e.detail.event.action == "pull" && e.detail.eventBottleId == b then 1 else 0
  {
    FanOutIsHarmless([], joined, b);
    FanOutIsHarmless(events, joined, b);
    FanOutIsHarmless(events + [e], joined, b);
    CountOneMore(events, e, PullOfBottle(b));
  }

  /** And for its user. */
  lemma OneMoreOfUser(events: seq<Row>, e: Row, d: Digest, username: string)
    ensures Count([], PullByUser(d, username)) == 0
    ensures Count(events + [e], PullByUser(d, username))
         == Count(events, PullByUser(d, username))
            + if e.detail.EventDetail? && e.detail.event.action == "pull" && e.detail.eventBottleDigest == d
                 && e.detail.event.username == username then 1 else 0
  {
    CountOneMore(events, e, PullByUser(d, username));
  }

  /** The document names a manifest, under a name of it, and that manifest's document this bottle. */
  ghost predicate NamesBottle(w: World, s: Store, doc: EventDoc, b: nat) {
    exists m: nat :: RowGoesBy(s, Manifest, m, doc.manifest) && ManifestNames(w, s, m, b)
  }

  ghost predicate ManifestNames(w: World, s: Store, m: nat, b: nat) {
    && m < |s.tables[Manifest]| && s.tables[Manifest][m].dataId < |s.data|
    && var manifest := w.parseManifest(s.data[s.tables[Manifest][m].dataId].raw);
    && manifest.Parsed? && RowGoesBy(s, Bottle, b, manifest.doc.config)
  }

  lemma EventRowNames(w: World, s: Store, e: nat, b: nat)
    requires Valid(w, s) && e < |s.tables[Event]|
    ensures s.tables[Event][e].detail.EventDetail?
    ensures s.tables[Event][e].detail.eventBottleId == b
            <==> NamesBottle(w, s, s.tables[Event][e].detail.event, b)
  {
    EventLinks(w, s, e);
    var row := s.tables[Event][e];
    var m := row.detail.manifestId;
    ManifestLinks(w, s, m);
    FoundIffGoesBy(w, s, Manifest, m, row.detail.event.manifest);
    FoundIffGoesBy(w, s, Bottle, row.detail.eventBottleId, row.detail.eventBottleDigest);
    if row.detail.eventBottleId == b {
      assert ManifestNames(w, s, m, b);
    }
    if NamesBottle(w, s, row.detail.event, b) {
      var m' :| RowGoesBy(s, Manifest, m', row.detail.event.manifest) && ManifestNames(w, s, m', b);
      FoundIffGoesBy(w, s, Manifest, m', row.detail.event.manifest);
      FoundIffGoesBy(w, s, Bottle, b, row.detail.eventBottleDigest);
    }
  }

  lemma {:induction false} RefreshCountsNothing(rows: seq<Row>, i: nat, version: nat, b: nat)
    requires i < |rows|
    ensures Count(rows[i := rows[i].(version := version)], PullOfBottle(b)) == Count(rows, PullOfBottle(b))
  {
    var n := |rows| - 1;
    var rows' := rows[i := rows[i].(version := version)];
    if i == n {
      assert rows'[..n] == rows[..n];
    } else {
      RefreshCountsNothing(rows[..n], i, version, b);
      assert rows'[..n] == rows[..n][i := rows[i].(version := version)];
    }
  }

  /**
   The pulls of a bottle after a PUT: one more if the PUT has created an event whose submitted document is a
   pull and names the bottle through its manifest, and otherwise as many as before.
  */
  lemma PutCountsPull(w: World, s: Store, r: Request, d: Digest, joined: seq<nat>, b: nat)
    requires Valid(w, s) && w.NoCollisions() && w.universe(r.bytes) && Asks(w, r, d) && b in joined
    ensures var (s', answer) := Put(w, s, r);
            var doc := w.parseEvent(r.bytes);
            NumPulls(s'.tables[Event], joined, b)
            == NumPulls(s.tables[Event], joined, b)
               + if r.kind == Event && answer == Created && doc.Parsed? && doc.doc.action == "pull"
                    && NamesBottle(w, s', doc.doc, b) then 1 else 0
  {
    var (s', answer) := Put(w, s, r);
    var id := PutLaw(w, s, r, d);
    PutValid(w, s, r);
    var rows, rows' := s.tables[Event], s'.tables[Event];
    FanOutIsHarmless(rows, joined, b);
    FanOutIsHarmless(rows', joined, b);
    if r.kind == Event && answer == Created {
      EventLinks(w, s', |rows|);
      EventRowNames(w, s', |rows|, b);
      CountOneMore(rows, rows'[|rows|], PullOfBottle(b));
    } else if r.kind == Event && answer == NoContent {
      var i: nat :| i < |rows| && rows[i].dataId == id
                    && s'.tables == s.tables[Event := rows[i := rows[i].(version := r.version)]];
      RefreshCountsNothing(rows, i, r.version, b);
    }
  }

  // ---------- pulls by user ----------

  datatype UserPull = UserPull(username: string, pullCount: nat)

  /** The groups of `GROUP BY username`, in any order the database chooses. */
  ghost predicate IsGrouping(events: seq<Row>, d: Digest, groups: seq<UserPull>) {
    && (forall i, j :: 0 <= i < j < |groups| ==> groups[i].username != groups[j].username)
    && (forall i :: 0 <= i < |groups| ==> groups[i].pullCount == Count(events, PullByUser(d, groups[i].username)) > 0)
    && (forall e | e in events && PullOfDigest(d)(e) ::
         exists i :: 0 <= i < |groups| && groups[i].username == e.detail.event.username)
  }

  function Usernames(groups: seq<UserPull>): set<string> {
    set g | g in groups :: g.username
  }

  function Limited(groups: seq<UserPull>, limit: int): seq<UserPull> {
    if 0 <= limit < |groups| then groups[..limit] else groups
  }

  /** A limit lets that many groups through, from the front; a negative one lets all through. */
  lemma LimitedExact(groups: seq<UserPull>, limit: int)
    ensures Limited(groups, limit) <= groups
    ensures |Limited(groups, limit)| == if 0 <= limit <= |groups| then limit else |groups|
  {
  }

  /** Fills a map from the rows of the query. */
  method UserPulls(groups: seq<UserPull>, limit: int) returns (userPulls: map<string, nat>)
    requires forall i, j :: 0 <= i < j < |groups| ==> groups[i].username != groups[j].username
    ensures userPulls.Keys == Usernames(Limited(groups, limit))
    ensures forall g | g in Limited(groups, limit) :: userPulls[g.username] == g.pullCount
  {
    var results := Limited(groups, limit);
    userPulls := map[];
    for i := 0 to |results|
      invariant userPulls.Keys == Usernames(results[..i])
      invariant forall j :: 0 <= j < i ==>
                  results[j].username in userPulls && userPulls[results[j].username] == results[j].pullCount
    {
      assert results[..i + 1] == results[..i] + [results[i]];
      userPulls := userPulls[results[i].username := results[i].pullCount];
    }
    assert results[..|results|] == results;
  }

  function SumOfCounts(groups: seq<UserPull>): nat {
    if groups == [] then 0 else SumOfCounts(groups[..|groups| - 1]) + groups[|groups| - 1].pullCount
  }

  function PullAmong(d: Digest, users: set<string>): Row -> bool {
    row => IsPull(row) && row.detail.eventBottleDigest == d && row.detail.event.username in users
  }

  lemma {:induction false} OneMoreUser(events: seq<Row>, d: Digest, users: set<string>, u: string)
    requires u !in users
    ensures Count(events, PullAmong(d, users + {u}))
           == Count(events, PullAmong(d, users)) + Count(events, PullByUser(d, u))
  {
    if events != [] {
      OneMoreUser(events[..|events| - 1], d, users, u);
    }
  }

  lemma LastUserIsNew(groups: seq<UserPull>)
    requires groups != [] && forall i, j :: 0 <= i < j < |groups| ==> groups[i].username != groups[j].username
    ensures var init, last := groups[..|groups| - 1], groups[|groups| - 1];
            last.username !in Usernames(init) && Usernames(groups) == Usernames(init) + {last.username}
  {
    var init, last := groups[..|groups| - 1], groups[|groups| - 1];
    assert groups == init + [last];
  }

  lemma {:induction false} CountsOfUsers(events: seq<Row>, d: Digest, groups: seq<UserPull>)
    requires forall i, j :: 0 <= i < j < |groups| ==> groups[i].username != groups[j].username
    requires forall i :: 0 <= i < |groups| ==> groups[i].pullCount == Count(events, PullByUser(d, groups[i].username))
    ensures SumOfCounts(groups) == Count(events, PullAmong(d, Usernames(groups)))
  {
    if groups == [] {
      CountIsPositive(events, PullAmong(d, Usernames(groups)));
    } else {
      var init, last := groups[..|groups| - 1], groups[|groups| - 1];
      LastUserIsNew(groups);
      CountsOfUsers(events, d, init);
      OneMoreUser(events, d, Usernames(init), last.username);
    }
  }

  lemma {:induction false} SumOfPrefix(groups: seq<UserPull>, k: nat)
    requires k <= |groups| && forall i :: 0 <= i < |groups| ==> groups[i].pullCount > 0
    ensures SumOfCounts(groups[..k]) <= SumOfCounts(groups)
    ensures k < |groups| ==> SumOfCounts(groups[..k]) < SumOfCounts(groups)
  {
    if k < |groups| {
      var init := groups[..|groups| - 1];
      SumOfPrefix(init, k);
      assert init[..k] == groups[..k];
    } else {
      assert groups[..k] == groups;
    }
  }

  /** The counts by user add up to the pulls of the digest exactly when the limit leaves no user out. */
  lemma UserPullsSum(events: seq<Row>, d: Digest, groups: seq<UserPull>, limit: int)
    requires IsGrouping(events, d, groups)
    ensures SumOfCounts(Limited(groups, limit)) <= BottlePulls(events, d)
    ensures SumOfCounts(Limited(groups, limit)) == BottlePulls(events, d) <==> limit < 0 || limit >= |groups|
  {
    CountsOfUsers(events, d, groups);
    forall e | e in events ensures PullAmong(d, Usernames(groups))(e) == PullOfDigest(d)(e) {
      if PullOfDigest(d)(e) {
        var i :| 0 <= i < |groups| && groups[i].username == e.detail.event.username;
        assert groups[i] in groups;
      }
    }
    SameCount(events, PullAmong(d, Usernames(groups)), PullOfDigest(d));
    SumOfPrefix(groups, if 0 <= limit < |groups| then limit else |groups|);
  }

  // ---------- bottles and their aliases ----------

  /** `INNER JOIN digests ON digests.data_id = bottles.data_id` */
  ghost predicate Joined(s: Store, b: nat, i: nat) {
    b < |s.tables[Bottle]| && i < |s.digests| && s.digests[i].dataId == s.tables[Bottle][b].dataId
  }

  function AliasJoin(s: Store): (rows: set<(nat, nat)>)
    ensures forall b: nat, i: nat :: (b, i) in rows <==> Joined(s, b, i)
  {
    set b: nat, i: nat | b < |s.tables[Bottle]| && i < |s.digests|
                       && s.digests[i].dataId == s.tables[Bottle][b].dataId :: (b, i)
  }

  lemma AliasOwner(w: World, s: Store, b: nat, b': nat, i: nat, j: nat)
    requires Valid(w, s) && Joined(s, b, i) && Joined(s, b', j) && s.digests[i].digest == s.digests[j].digest
    ensures b == b'
  {
    assert i == j;
    assert ValidRows(w, s, Bottle);
  }

  lemma AliasOf(w: World, s: Store, b: nat) returns (i: nat)
    requires Valid(w, s) && b < |s.tables[Bottle]|
    ensures Joined(s, b, i)
  {
    assert ValidRows(w, s, Bottle);
    assert ValidRow(w, s, Bottle, s.tables[Bottle][b]);
    i :| 0 <= i < |s.digests| && s.digests[i].dataId == s.tables[Bottle][b].dataId;
  }

  function Parts(row: Row): seq<Digest> {
    if row.detail.BottleDetail? then row.detail.doc.parts else []
  }

  function Deprecations(row: Row): seq<Digest> {
    if row.detail.BottleDetail? then row.detail.doc.deprecates else []
  }

  // ---------- filtering by parts ----------

  /** The subquery: the digests of the bottles with the part. */
  function DigestsWithPart(s: Store, part: Digest): set<Digest> {
    set row | row in AliasJoin(s) && part in Parts(s.tables[Bottle][row.0]) :: s.digests[row.1].digest
  }

  lemma DigestsWithPartExact(w: World, s: Store, part: Digest, b: nat, i: nat)
    requires Valid(w, s) && Joined(s, b, i)
    ensures s.digests[i].digest in DigestsWithPart(s, part) <==> part in Parts(s.tables[Bottle][b])
  {
    if s.digests[i].digest in DigestsWithPart(s, part) {
      var row :| row in AliasJoin(s) && part in Parts(s.tables[Bottle][row.0])
                 && s.digests[row.1].digest == s.digests[i].digest;
      assert Joined(s, row.0, row.1);
      AliasOwner(w, s, b, row.0, i, row.1);
    }
    assert (b, i) in AliasJoin(s);
  }

  /** The bottle contains every part asked for. */
  ghost predicate HasParts(s: Store, b: nat, partDigests: seq<Digest>) {
    b < |s.tables[Bottle]| && forall p | p in partDigests :: p in Parts(s.tables[Bottle][b])
  }

  /** The submitted document of the bottle contains every part asked for. */
  ghost predicate ContainsParts(w: World, s: Store, b: nat, partDigests: seq<Digest>) {
    && b < |s.tables[Bottle]| && s.tables[Bottle][b].dataId < |s.data|
    && var document := w.parseBottle(s.data[s.tables[Bottle][b].dataId].raw);
    document.Parsed? && forall p | p in partDigests :: p in document.doc.parts
  }

  lemma HasPartsIff(w: World, s: Store, b: nat, partDigests: seq<Digest>)
    requires Valid(w, s)
    ensures HasParts(s, b, partDigests) <==> ContainsParts(w, s, b, partDigests)
  {
    if b < |s.tables[Bottle]| {
      BottleLinks(w, s, b);
    }
  }

  /** Narrows the join once for each requested part. Every row left is a bottle with all of them,
       under one of its digests. */
  method FilterByParts(ghost w: World, s: Store, partDigests: seq<Digest>) returns (query: set<(nat, nat)>)
    requires Valid(w, s)
    ensures forall b: nat, i: nat :: (b, i) in query <==> Joined(s, b, i) && HasParts(s, b, partDigests)
    ensures forall b: nat, i: nat ::
              (b, i) in query <==> i < |s.digests| && ContainsParts(w, s, b, partDigests)
                                   && s.digests[i].dataId == s.tables[Bottle][b].dataId
  {
    forall b: nat ensures HasParts(s, b, partDigests) <==> ContainsParts(w, s, b, partDigests) {
      HasPartsIff(w, s, b, partDigests);
    }
    query := AliasJoin(s);
    for n := 0 to |partDigests|
      invariant query <= AliasJoin(s)
      invariant forall b: nat, i: nat | Joined(s, b, i) ::
                  (b, i) in query <==> forall m | 0 <= m < n :: partDigests[m] in Parts(s.tables[Bottle][b])
    {
      var bottleDigestsWithParts := DigestsWithPart(s, partDigests[n]);
      forall b: nat, i: nat | Joined(s, b, i)
        ensures s.digests[i].digest in bottleDigestsWithParts <==> partDigests[n] in Parts(s.tables[Bottle][b])
      {
        DigestsWithPartExact(w, s, partDigests[n], b, i);
      }
      query := set row | row in query && s.digests[row.1].digest in bottleDigestsWithParts;
    }
  }

  /** The bottles found are exactly those with every requested part, for any number of digests of a bottle. */
  lemma PartsFound(w: World, s: Store, partDigests: seq<Digest>, query: set<(nat, nat)>, b: nat)
    requires Valid(w, s) && b < |s.tables[Bottle]|
    requires forall b: nat, i: nat :: (b, i) in query <==> Joined(s, b, i) && HasParts(s, b, partDigests)
    ensures (exists i: nat :: (b, i) in query) <==> ContainsParts(w, s, b, partDigests)
  {
    HasPartsIff(w, s, b, partDigests);
    var i := AliasOf(w, s, b);
    assert (b, i) in query <==> HasParts(s, b, partDigests);
  }

  // ---------- deprecation ----------

  function DeprecatedDigests(s: Store): set<Digest> {
    set b: nat, d | b < |s.tables[Bottle]| && d in Deprecations(s.tables[Bottle][b]) :: d
  }

  /** The alias rows that `NOT IN` the deprecated digests. */
  function ExcludeDeprecated(s: Store): set<(nat, nat)> {
    set row | row in AliasJoin(s) && s.digests[row.1].digest !in DeprecatedDigests(s)
  }

  ghost predicate Listed(s: Store, b: nat) {
    exists i: nat :: (b, i) in ExcludeDeprecated(s)
  }

  /** `is_deprecated` by the rule that any deprecated alias is enough. */
  ghost predicate IsDeprecated(s: Store, b: nat) {
    exists i: nat :: Joined(s, b, i) && s.digests[i].digest in DeprecatedDigests(s)
  }

  ghost predicate AllOrNoneDeprecated(s: Store, b: nat) {
    forall i: nat, j: nat | Joined(s, b, i) && Joined(s, b, j) ::
      s.digests[i].digest in DeprecatedDigests(s) ==> s.digests[j].digest in DeprecatedDigests(s)
  }

  ghost predicate HasOneAlias(s: Store, b: nat) {
    forall i: nat, j: nat | Joined(s, b, i) && Joined(s, b, j) :: i == j
  }

  /** Some submitted document deprecates the digest. */
  ghost predicate IsDeprecatedBySome(w: World, s: Store, d: Digest) {
    exists c: nat :: DeprecatesIt(w, s, c, d)
  }

  ghost predicate DeprecatesIt(w: World, s: Store, c: nat, d: Digest) {
    && c < |s.tables[Bottle]| && s.tables[Bottle][c].dataId < |s.data|
    && var document := w.parseBottle(s.data[s.tables[Bottle][c].dataId].raw);
    document.Parsed? && d in document.doc.deprecates
  }

  lemma DeprecatedIff(w: World, s: Store, d: Digest)
    requires Valid(w, s)
    ensures d in DeprecatedDigests(s) <==> IsDeprecatedBySome(w, s, d)
  {
    forall c: nat | c < |s.tables[Bottle]|
      ensures d in Deprecations(s.tables[Bottle][c]) <==> DeprecatesIt(w, s, c, d)
    {
      BottleLinks(w, s, c);
    }
    if IsDeprecatedBySome(w, s, d) {
      var c: nat :| DeprecatesIt(w, s, c, d);
      assert d in Deprecations(s.tables[Bottle][c]);
    }
  }

  /** Marking and listing, said of the submitted documents and the aliases. */
  lemma MarkedAndListedIff(w: World, s: Store, b: nat)
    requires Valid(w, s) && b < |s.tables[Bottle]|
    ensures IsDeprecated(s, b) <==>
              exists d :: DigestRow(s.tables[Bottle][b].dataId, d) in s.digests && IsDeprecatedBySome(w, s, d)
    ensures Listed(s, b) <==>
              exists d :: DigestRow(s.tables[Bottle][b].dataId, d) in s.digests && !IsDeprecatedBySome(w, s, d)
  {
    forall i: nat | Joined(s, b, i)
      ensures DigestRow(s.tables[Bottle][b].dataId, s.digests[i].digest) in s.digests
      ensures s.digests[i].digest in DeprecatedDigests(s) <==> IsDeprecatedBySome(w, s, s.digests[i].digest)
    {
      assert s.digests[i] == DigestRow(s.tables[Bottle][b].dataId, s.digests[i].digest);
      DeprecatedIff(w, s, s.digests[i].digest);
    }
    forall d | DigestRow(s.tables[Bottle][b].dataId, d) in s.digests
      ensures exists i: nat :: Joined(s, b, i) && s.digests[i].digest == d
    {
      var i :| 0 <= i < |s.digests| && s.digests[i] == DigestRow(s.tables[Bottle][b].dataId, d);
      assert Joined(s, b, i);
    }
    ExcludedIff(s, b);
  }

  /** A bottle is left out exactly when all of its digests are deprecated. */
  lemma ExcludedIff(s: Store, b: nat)
    requires b < |s.tables[Bottle]|
    ensures !Listed(s, b) <==> forall i: nat | Joined(s, b, i) :: s.digests[i].digest in DeprecatedDigests(s)
  {
    if !Listed(s, b) {
      forall i: nat | Joined(s, b, i) ensures s.digests[i].digest in DeprecatedDigests(s) {
        assert (b, i) !in ExcludeDeprecated(s);
      }
    }
  }

  /** So leaving out and `is_deprecated` agree on a bottle exactly when its digests are deprecated together. */
  lemma DeprecationAgrees(w: World, s: Store, b: nat)
    requires Valid(w, s) && b < |s.tables[Bottle]|
    ensures (Listed(s, b) <==> !IsDeprecated(s, b)) <==> AllOrNoneDeprecated(s, b)
    ensures HasOneAlias(s, b) ==> (Listed(s, b) <==> !IsDeprecated(s, b))
  {
    ExcludedIff(s, b);
    var i := AliasOf(w, s, b);
    if Listed(s, b) {
      var j: nat :| (b, j) in ExcludeDeprecated(s);
      assert Joined(s, b, j);
    }
  }

  /**
   Databases that take the bare column from some row of the group answer like the any-alias rule for every
   choice of that row exactly under the same condition.
  */
  lemma BareColumnAgrees(w: World, s: Store, b: nat)
    requires Valid(w, s) && b < |s.tables[Bottle]|
    ensures (forall i: nat | Joined(s, b, i) :: s.digests[i].digest in DeprecatedDigests(s) <==> IsDeprecated(s, b))
       <==> AllOrNoneDeprecated(s, b)
  {
    if forall i: nat | Joined(s, b, i) :: s.digests[i].digest in DeprecatedDigests(s) <==> IsDeprecated(s, b) {
      assert AllOrNoneDeprecated(s, b);
    }
  }

  // ---------- a bottle of which one digest is deprecated ----------

  const OLD: Bytes := [1]
  const NEW: Bytes := [2]

  const OLD_NAME := Digest(SHA256, "old")

  const OLD_DOC := BottleDoc([], map[], [], [], [])
  const NEW_DOC := BottleDoc([], map[], [], [], [OLD_NAME])

  /** Two documents, the second of which deprecates the first under one of its digests. */
  const REPLACED := World(
    (alg: Algorithm, b: Bytes) => if b == OLD then "old" else "new",
    b => if b == OLD then Parsed(OLD_DOC) else if b == NEW then Parsed(NEW_DOC) else Malformed,
    b => Malformed,
    b => Malformed,
    b => b == OLD || b == NEW)

  const FIRST := Request(Bottle, OLD, ByAlgorithm(SHA256), 1, 1)
  const SECOND := Request(Bottle, OLD, ByAlgorithm(SHA512), 1, 2)
  const THIRD := Request(Bottle, NEW, ByAlgorithm(SHA256), 1, 3)

  const AFTER1 := Store([DataRow(OLD, OLD_NAME)], [DigestRow(0, OLD_NAME)],
    NO_ROWS[Bottle := [Row(1, 1, 0, BottleDetail(OLD_DOC, []))]])
  const AFTER2 := AFTER1.(digests := AFTER1.digests + [DigestRow(0, Digest(SHA512, "old"))])
  const AFTER3 := Store(AFTER2.data + [DataRow(NEW, Digest(SHA256, "new"))],
    AFTER2.digests + [DigestRow(1, Digest(SHA256, "new"))],
    NO_ROWS[Bottle := [Row(1, 1, 0, BottleDetail(OLD_DOC, [])), Row(3, 1, 1, BottleDetail(NEW_DOC, []))]])

  lemma AfterFirst()
    ensures Put(REPLACED, EMPTY, FIRST) == (AFTER1, Created)
  {
    var w := REPLACED;
    var (s, id) := Register(w, EMPTY, OLD_NAME, OLD);
    assert s == Store(AFTER1.data, AFTER1.digests, NO_ROWS) && id == Ok(0);
    assert ArtifactData(s.digests, []) == [];
    assert Resolve(w, s, Bottle, OLD) == Ok(BottleDetail(OLD_DOC, []));
    assert NO_ROWS[Bottle] + [Row(1, 1, 0, BottleDetail(OLD_DOC, []))] == [Row(1, 1, 0, BottleDetail(OLD_DOC, []))];
  }

  lemma AfterSecond()
    ensures Put(REPLACED, AFTER1, SECOND) == (AFTER2, NoContent)
  {
    var (s, id) := Register(REPLACED, AFTER1, Digest(SHA512, "old"), OLD);
    assert s == AFTER2 && id == Ok(0);
    assert IndexOfRow(s.tables[Bottle], 0) == Some(0);
  }

  lemma AfterThird()
    ensures Put(REPLACED, AFTER2, THIRD) == (AFTER3, Created)
  {
    var w := REPLACED;
    assert NEW != OLD && "new" != "old";
    var (s, id) := Register(w, AFTER2, Digest(SHA256, "new"), NEW);
    assert s == Store(AFTER3.data, AFTER3.digests, AFTER2.tables) && id == Ok(1);
    assert ArtifactData(s.digests, []) == [];
    assert Resolve(w, s, Bottle, NEW) == Ok(BottleDetail(NEW_DOC, []));
    assert IndexOfRow(s.tables[Bottle], 1) == None;
    assert s.tables[Bottle] + [Row(3, 1, 1, BottleDetail(NEW_DOC, []))] == AFTER3.tables[Bottle];
    assert SaveRow(s, Bottle, None, Row(3, 1, 1, BottleDetail(NEW_DOC, []))).tables == AFTER3.tables;
  }

  lemma AfterAll()
    ensures AllAccepted(REPLACED, EMPTY, [FIRST, SECOND, THIRD])
    ensures PutAll(REPLACED, EMPTY, [FIRST, SECOND, THIRD]) == AFTER3
  {
    AfterFirst();
    AfterSecond();
    AfterThird();
    var w := REPLACED;
    assert [THIRD][1..] == [];
    assert PutAll(w, AFTER2, [THIRD]) == AFTER3 && AllAccepted(w, AFTER2, [THIRD]);
    assert [SECOND, THIRD][1..] == [THIRD];
    assert PutAll(w, AFTER1, [SECOND, THIRD]) == AFTER3 && AllAccepted(w, AFTER1, [SECOND, THIRD]);
    assert [FIRST, SECOND, THIRD][1..] == [SECOND, THIRD];
  }

  /** After three PUTs, none refused, the old bottle is marked as deprecated and still listed. */
  lemma DeprecationDisagrees()
    ensures REPLACED.NoCollisions() && AllAccepted(REPLACED, EMPTY, [FIRST, SECOND, THIRD])
    ensures var s := PutAll(REPLACED, EMPTY, [FIRST, SECOND, THIRD]);
            |s.tables[Bottle]| == 2 && Listed(s, 0) && IsDeprecated(s, 0)
  {
    AfterAll();
    assert "old" != "new";
    MarkedAndListed();
  }

  lemma MarkedAndListed()
    ensures |AFTER3.tables[Bottle]| == 2 && Listed(AFTER3, 0) && IsDeprecated(AFTER3, 0)
  {
    OneNameIsDeprecated();
    assert Joined(AFTER3, 0, 0) && Joined(AFTER3, 0, 1);
    assert (0, 1) in ExcludeDeprecated(AFTER3);
  }

  lemma OneNameIsDeprecated()
    ensures |AFTER3.tables[Bottle]| == 2 && |AFTER3.digests| == 3
    ensures AFTER3.digests[0].digest in DeprecatedDigests(AFTER3)
    ensures AFTER3.digests[1].digest !in DeprecatedDigests(AFTER3)
  {
    assert AFTER3.tables[Bottle][0].detail == BottleDetail(OLD_DOC, []);
    assert AFTER3.tables[Bottle][1].detail == BottleDetail(NEW_DOC, []);
    assert OLD_NAME in Deprecations(AFTER3.tables[Bottle][1]);
  }
}
