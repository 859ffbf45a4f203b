/**
 Why a mirror can be restored: what is downloaded in reverse dependency order is closed under
 dependencies, and what is closed is accepted when it is submitted in dependency order.
*/
module Restore {
  import opened Types
  import opened Store
  import opened Invariant
  import opened Catalog
  import opened Submissions
  import opened Listing

  ghost predicate HonestEntry(w: World, e: Entry) {
    match e
    case Entry(_, digests, data) =>
      w.universe(data) && digests != [] && forall d | d in digests :: d.alg.Available() && d == w.DigestOf(d.alg, data)
  }

  ghost predicate AreHonest(w: World, entries: seq<Entry>) {
    forall e | e in entries :: HonestEntry(w, e)
  }

  /** A record is submitted once under each of its names. */
  function EntryAsks(kind: Kind, e: Entry): seq<Ask> {
    seq(|e.digests|, i requires 0 <= i < |e.digests| => Ask(kind, e.digests[i], e.data))
  }

  function AsksOf(kind: Kind, entries: seq<Entry>): seq<Ask> {
    if entries == [] then []
    else AsksOf(kind, entries[..|entries| - 1]) + EntryAsks(kind, entries[|entries| - 1])
  }

  function NamesOf(entries: seq<Entry>): set<Digest> {
    set e, d | e in entries && d in e.digests :: d
  }

  function DataOf(kind: Kind, entries: seq<Entry>): set<(Kind, Bytes)> {
    set e | e in entries :: (kind, e.data)
  }

  lemma {:induction false} AsksOfExact(w: World, kind: Kind, entries: seq<Entry>)
    requires forall e | e in entries :: HonestEntry(w, e)
    ensures AllHonest(w, AsksOf(kind, entries))
    ensures Names(AsksOf(kind, entries)) == NamesOf(entries)
    ensures Objects(AsksOf(kind, entries)) == DataOf(kind, entries)
  {
    if entries != [] {
      var init, last := entries[..|entries| - 1], entries[|entries| - 1];
      assert entries == init + [last];
      AsksOfExact(w, kind, init);
      var asks := EntryAsks(kind, last);
      EntryAsksExact(w, kind, last);
      assert Names(AsksOf(kind, init) + asks) == Names(AsksOf(kind, init)) + Names(asks);
      assert Objects(AsksOf(kind, init) + asks) == Objects(AsksOf(kind, init)) + Objects(asks);
    }
  }

  lemma EntryAsksExact(w: World, kind: Kind, e: Entry)
    requires HonestEntry(w, e)
    ensures AllHonest(w, EntryAsks(kind, e))
    ensures Names(EntryAsks(kind, e)) == (set d | d in e.digests)
    ensures Objects(EntryAsks(kind, e)) == {(kind, e.data)}
  {
    var asks := EntryAsks(kind, e);
    assert forall i | 0 <= i < |asks| :: asks[i] in asks && asks[i].digest == e.digests[i];
    assert (kind, asks[0].bytes) == (kind, e.data) && asks[0] in asks;
  }

  // ---------- submitting one record, and one type ----------

  lemma {:induction false} RepeatsAreAccepted(w: World, c: Catalog, kind: Kind, bytes: Bytes, asks: seq<Ask>)
    requires (kind, bytes) in c.items
    requires forall i | 0 <= i < |asks| :: asks[i].kind == kind && asks[i].bytes == bytes
    ensures Accepts(w, c, asks)
    decreases asks
  {
    if asks != [] {
      RepeatsAreAccepted(w, Submit(w, c, kind, asks[0].digest, bytes).0, kind, bytes, asks[1..]);
    }
  }

  function Name(c: Catalog, digest: Digest, bytes: Bytes): Catalog {
    c.(aliases := c.aliases[digest := bytes])
  }

  lemma EntryAccepted(w: World, c: Catalog, kind: Kind, e: Entry)
    requires e.digests != []
    ensures Accepts(w, c, EntryAsks(kind, e))
            <==> (kind, e.data) in c.items || Refusal(w, Name(c, e.digests[0], e.data), kind, e.data) == None
  {
    var asks := EntryAsks(kind, e);
    var (c', answer) := Submit(w, c, kind, e.digests[0], e.data);
    assert asks[0] == Ask(kind, e.digests[0], e.data);
    if !answer.Failed? {
      RepeatsAreAccepted(w, c', kind, e.data, asks[1..]);
    }
  }

  /** What is not refused at the start is not refused on the way. */
  lemma {:induction false} StageAccepted(w: World, c: Catalog, kind: Kind, entries: seq<Entry>)
    requires Sound(w, c) && w.NoCollisions()
    requires forall e | e in entries :: HonestEntry(w, e) && Refusal(w, c, kind, e.data) == None
    ensures Accepts(w, c, AsksOf(kind, entries))
  {
    if entries != [] {
      var init, last := entries[..|entries| - 1], entries[|entries| - 1];
      assert entries == init + [last];
      StageAccepted(w, c, kind, init);
      AsksOfExact(w, kind, init);
      SubmitAllSound(w, c, AsksOf(kind, init));
      var c' := SubmitAll(w, c, AsksOf(kind, init)).0;
      assert HonestEntry(w, last);
      NameExtends(w, c', last);
      AcceptanceStable(w, c, c', kind, last.data);
      AcceptanceStable(w, c', Name(c', last.digests[0], last.data), kind, last.data);
      EntryAccepted(w, c', kind, last);
      SubmitAllSplits(w, c, AsksOf(kind, init), EntryAsks(kind, last));
    }
  }

  lemma NameExtends(w: World, c: Catalog, e: Entry)
    requires Sound(w, c) && w.NoCollisions() && HonestEntry(w, e)
    ensures Extends(c, Name(c, e.digests[0], e.data))
  {
    var d := e.digests[0];
    assert d in e.digests;
    if d in c.aliases {
      assert w.DigestOf(d.alg, c.aliases[d]) == w.DigestOf(d.alg, e.data);
    }
  }

  // ---------- bottles: exactly when all artifacts come first ----------

  predicate NamedBefore(entries: seq<Entry>, i: nat, d: Digest)
    requires i <= |entries|
  {
    exists j :: 0 <= j < i && d in entries[j].digests
  }

  predicate IsFirst(e: Entry, d: Digest) {
    e.digests != [] && d == e.digests[0]
  }

  /**
   The i-th bottle finds its artifacts: among the names known before, those of earlier bottles, and
   the first name of its own.
  */
  predicate Supplied(w: World, known: set<Digest>, have: set<(Kind, Bytes)>, entries: seq<Entry>, i: nat)
    requires i < |entries|
  {
    || (Bottle, entries[i].data) in have
    || (match w.parseBottle(entries[i].data)
        case Parsed(doc) =>
          forall a | a in doc.artifacts :: a in known || IsFirst(entries[i], a) || NamedBefore(entries, i, a)
        case _ => false)
  }

  lemma BottleAccepted(w: World, c: Catalog, e: Entry)
    requires e.digests != []
    ensures Refusal(w, Name(c, e.digests[0], e.data), Bottle, e.data) == None
            <==> w.parseBottle(e.data).Parsed?
                 && forall a | a in w.parseBottle(e.data).doc.artifacts :: a in c.aliases || IsFirst(e, a)
  {
    if w.parseBottle(e.data).Parsed? {
      MissingFromIff(Name(c, e.digests[0], e.data), w.parseBottle(e.data).doc.artifacts);
    }
  }

  lemma NamedBeforeIff(entries: seq<Entry>, i: nat, d: Digest)
    requires i <= |entries|
    ensures NamedBefore(entries, i, d) <==> d in NamesOf(entries[..i])
  {
    var before := entries[..i];
    if NamedBefore(entries, i, d) {
      var j :| 0 <= j < i && d in entries[j].digests;
      assert before[j] in before;
    }
    if d in NamesOf(before) {
      var e :| e in before && d in e.digests;
      var j :| 0 <= j < |before| && before[j] == e;
      assert d in entries[j].digests;
    }
  }

  /** The last bottle is accepted after the others exactly when it is supplied. */
  lemma LastBottle(w: World, c: Catalog, c': Catalog, entries: seq<Entry>)
    requires entries != [] && (forall e | e in entries :: e.digests != [])
    requires var init := entries[..|entries| - 1];
             && c'.aliases.Keys == c.aliases.Keys + NamesOf(init)
             && c'.items == c.items + DataOf(Bottle, init)
    requires forall i | 0 <= i < |entries| - 1 :: Supplied(w, c.aliases.Keys, c.items, entries, i)
    ensures Accepts(w, c', EntryAsks(Bottle, entries[|entries| - 1]))
            <==> Supplied(w, c.aliases.Keys, c.items, entries, |entries| - 1)
  {
    var n := |entries| - 1;
    var init, last := entries[..n], entries[n];
    EntryAccepted(w, c', Bottle, last);
    BottleAccepted(w, c', last);
    forall d ensures d in c'.aliases <==> d in c.aliases || NamedBefore(entries, n, d) {
      NamedBeforeIff(entries, n, d);
    }
    if (Bottle, last.data) in c'.items && (Bottle, last.data) !in c.items {
      var e :| e in init && e.data == last.data;
      var j :| 0 <= j < n && init[j] == e;
      assert entries[j] == e && Supplied(w, c.aliases.Keys, c.items, entries, j);
      forall a | a in w.parseBottle(last.data).doc.artifacts ensures a in c.aliases.Keys || NamedBefore(entries, n, a) {
        assert IsFirst(entries[j], a) ==> a in entries[j].digests;
      }
    }
  }

  lemma SuppliedInPrefix(w: World, known: set<Digest>, have: set<(Kind, Bytes)>, entries: seq<Entry>, n: nat, i: nat)
    requires i < n <= |entries|
    ensures Supplied(w, known, have, entries[..n], i) <==> Supplied(w, known, have, entries, i)
  {
    forall d ensures NamedBefore(entries[..n], i, d) <==> NamedBefore(entries, i, d) {
      if NamedBefore(entries, i, d) {
        var j :| 0 <= j < i && d in entries[j].digests;
        assert entries[..n][j] == entries[j];
      }
    }
  }

  /** The bottles are accepted one after the other exactly when each of them is supplied. */
  lemma {:induction false} BottlesAccepted(w: World, c: Catalog, entries: seq<Entry>)
    requires Sound(w, c) && w.NoCollisions() && forall e | e in entries :: HonestEntry(w, e)
    ensures Accepts(w, c, AsksOf(Bottle, entries))
            <==> forall i | 0 <= i < |entries| :: Supplied(w, c.aliases.Keys, c.items, entries, i)
  {
    if entries != [] {
      var n := |entries| - 1;
      var init, last := entries[..n], entries[n];
      assert entries == init + [last];
      BottlesAccepted(w, c, init);
      forall i | 0 <= i < n
        ensures Supplied(w, c.aliases.Keys, c.items, init, i) <==> Supplied(w, c.aliases.Keys, c.items, entries, i)
      {
        SuppliedInPrefix(w, c.aliases.Keys, c.items, entries, n, i);
      }
      SubmitAllSplits(w, c, AsksOf(Bottle, init), EntryAsks(Bottle, last));
      if Accepts(w, c, AsksOf(Bottle, init)) {
        AcceptedAddsExactly(w, c, AsksOf(Bottle, init));
        AsksOfExact(w, Bottle, init);
        LastBottle(w, c, SubmitAll(w, c, AsksOf(Bottle, init)).0, entries);
      }
    }
  }

  // ---------- the whole mirror ----------

  datatype Snapshot = Snapshot(blobs: seq<Entry>, bottles: seq<Entry>, manifests: seq<Entry>, events: seq<Entry>)
  {
    function Of(kind: Kind): seq<Entry> {
      match kind
      case Blob => blobs
      case Bottle => bottles
      case Manifest => manifests
      case Event => events
    }
  }

  /** Every type is submitted before the types that depend on it. */
  function SnapshotAsks(m: Snapshot): seq<Ask> {
    AsksOf(Blob, m.blobs) + (AsksOf(Bottle, m.bottles) + (AsksOf(Manifest, m.manifests) + AsksOf(Event, m.events)))
  }

  ghost predicate HonestSnapshot(w: World, m: Snapshot) {
    AreHonest(w, m.blobs) && AreHonest(w, m.bottles) && AreHonest(w, m.manifests) && AreHonest(w, m.events)
  }

  ghost predicate HasBottle(w: World, m: Snapshot, manifest: Entry) {
    match w.parseManifest(manifest.data)
    case Parsed(doc) => exists b :: b in m.bottles && doc.config in b.digests && |doc.layers| == Parts(w, b.data)
    case _ => false
  }

  ghost predicate HasManifest(w: World, m: Snapshot, event: Entry) {
    match w.parseEvent(event.data)
    case Parsed(doc) => exists e :: e in m.manifests && doc.manifest in e.digests
    case _ => false
  }

  /** Every manifest comes with its bottle, and every event with its manifest. */
  ghost predicate Closed(w: World, m: Snapshot) {
    && (forall e | e in m.manifests :: HasBottle(w, m, e))
    && (forall e | e in m.events :: HasManifest(w, m, e))
  }

  lemma FindsEntry(w: World, c: Catalog, kind: Kind, e: Entry, d: Digest)
    requires Sound(w, c) && w.NoCollisions() && HonestEntry(w, e) && d in e.digests
    requires d in c.aliases && (kind, e.data) in c.items
    ensures Stored(c, kind, d) && c.aliases[d] == e.data
  {
    assert w.DigestOf(d.alg, c.aliases[d]) == w.DigestOf(d.alg, e.data);
  }

  lemma ManifestsAccepted(w: World, c: Catalog, m: Snapshot)
    requires Sound(w, c) && w.NoCollisions() && HonestSnapshot(w, m) && Closed(w, m)
    requires NamesOf(m.bottles) <= c.aliases.Keys && DataOf(Bottle, m.bottles) <= c.items
    ensures Accepts(w, c, AsksOf(Manifest, m.manifests))
  {
    forall e | e in m.manifests ensures HonestEntry(w, e) && Refusal(w, c, Manifest, e.data) == None {
      assert HasBottle(w, m, e);
      var doc := w.parseManifest(e.data).doc;
      var b :| b in m.bottles && doc.config in b.digests && |doc.layers| == Parts(w, b.data);
      assert doc.config in NamesOf(m.bottles) && (Bottle, b.data) in DataOf(Bottle, m.bottles);
      FindsEntry(w, c, Bottle, b, doc.config);
    }
    StageAccepted(w, c, Manifest, m.manifests);
  }

  lemma EventAccepted(w: World, c: Catalog, m: Snapshot, e: Entry)
    requires Sound(w, c) && w.NoCollisions() && (forall x | x in m.manifests :: HonestEntry(w, x))
    requires HasManifest(w, m, e)
    requires NamesOf(m.manifests) <= c.aliases.Keys && DataOf(Manifest, m.manifests) <= c.items
    ensures Refusal(w, c, Event, e.data) == None
  {
    var doc := w.parseEvent(e.data).doc;
    var x :| x in m.manifests && doc.manifest in x.digests;
    assert doc.manifest in NamesOf(m.manifests) && (Manifest, x.data) in DataOf(Manifest, m.manifests);
    FindsEntry(w, c, Manifest, x, doc.manifest);
  }

  lemma EventsAccepted(w: World, c: Catalog, m: Snapshot)
    requires Sound(w, c) && w.NoCollisions() && HonestSnapshot(w, m) && Closed(w, m)
    requires NamesOf(m.manifests) <= c.aliases.Keys && DataOf(Manifest, m.manifests) <= c.items
    ensures Accepts(w, c, AsksOf(Event, m.events))
  {
    forall e | e in m.events ensures HonestEntry(w, e) && Refusal(w, c, Event, e.data) == None {
      EventAccepted(w, c, m, e);
    }
    StageAccepted(w, c, Event, m.events);
  }

  /** Submitting one type: what is known after it. */
  lemma Stage(w: World, c: Catalog, kind: Kind, entries: seq<Entry>) returns (c': Catalog)
    requires Sound(w, c) && w.NoCollisions() && (forall e | e in entries :: HonestEntry(w, e))
    requires Accepts(w, c, AsksOf(kind, entries))
    ensures c' == SubmitAll(w, c, AsksOf(kind, entries)).0
    ensures Sound(w, c')
    ensures c'.aliases.Keys == c.aliases.Keys + NamesOf(entries)
    ensures c'.items == c.items + DataOf(kind, entries)
  {
    c' := SubmitAll(w, c, AsksOf(kind, entries)).0;
    AsksOfExact(w, kind, entries);
    AcceptedAddsExactly(w, c, AsksOf(kind, entries));
    SubmitAllSound(w, c, AsksOf(kind, entries));
  }

  /** Every bottle of the snapshot finds its artifacts among what came before it. */
  predicate AllSupplied(w: World, c: Catalog, m: Snapshot) {
    forall i | 0 <= i < |m.bottles| ::
      Supplied(w, c.aliases.Keys + NamesOf(m.blobs), c.items, m.bottles, i)
  }

  lemma AfterBottles(w: World, c: Catalog, m: Snapshot)
    requires Sound(w, c) && w.NoCollisions() && HonestSnapshot(w, m) && Closed(w, m)
    requires NamesOf(m.bottles) <= c.aliases.Keys && DataOf(Bottle, m.bottles) <= c.items
    ensures Accepts(w, c, AsksOf(Manifest, m.manifests) + AsksOf(Event, m.events))
  {
    ManifestsAccepted(w, c, m);
    var c' := Stage(w, c, Manifest, m.manifests);
    EventsAccepted(w, c', m);
    SubmitAllSplits(w, c, AsksOf(Manifest, m.manifests), AsksOf(Event, m.events));
  }

  /**
   A closed snapshot is accepted in dependency order, by a server that may already hold anything,
   exactly when every bottle finds its artifacts before it.
  */
  lemma RestoreAcceptedIff(w: World, c: Catalog, m: Snapshot)
    requires Sound(w, c) && w.NoCollisions() && HonestSnapshot(w, m) && Closed(w, m)
    ensures Accepts(w, c, SnapshotAsks(m)) <==> AllSupplied(w, c, m)
  {
    var bottles, rest := AsksOf(Bottle, m.bottles), AsksOf(Manifest, m.manifests) + AsksOf(Event, m.events);
    StageAccepted(w, c, Blob, m.blobs);
    var c1 := Stage(w, c, Blob, m.blobs);
    SubmitAllSplits(w, c, AsksOf(Blob, m.blobs), bottles + rest);
    BottlesAccepted(w, c1, m.bottles);
    SubmitAllSplits(w, c1, bottles, rest);
    if Accepts(w, c1, bottles) {
      var c2 := Stage(w, c1, Bottle, m.bottles);
      AfterBottles(w, c2, m);
    }
    forall i | 0 <= i < |m.bottles|
      ensures Supplied(w, c1.aliases.Keys, c1.items, m.bottles, i)
              <==> Supplied(w, c.aliases.Keys + NamesOf(m.blobs), c.items, m.bottles, i)
    {
      assert (Bottle, m.bottles[i].data) in c1.items <==> (Bottle, m.bottles[i].data) in c.items;
    }
  }

  /** A restored snapshot adds exactly its own names and objects. */
  lemma RestoredExactly(w: World, c: Catalog, m: Snapshot)
    requires Sound(w, c) && w.NoCollisions() && HonestSnapshot(w, m)
    requires Accepts(w, c, SnapshotAsks(m))
    ensures var c' := SubmitAll(w, c, SnapshotAsks(m)).0;
            && Sound(w, c')
            && c'.aliases.Keys
               == c.aliases.Keys + NamesOf(m.blobs) + NamesOf(m.bottles) + NamesOf(m.manifests) + NamesOf(m.events)
            && c'.items == c.items + DataOf(Blob, m.blobs) + DataOf(Bottle, m.bottles)
               + DataOf(Manifest, m.manifests) + DataOf(Event, m.events)
  {
    var events := AsksOf(Event, m.events);
    var manifests := AsksOf(Manifest, m.manifests) + events;
    var bottles := AsksOf(Bottle, m.bottles) + manifests;
    SubmitAllSplits(w, c, AsksOf(Blob, m.blobs), bottles);
    var c1 := Stage(w, c, Blob, m.blobs);
    SubmitAllSplits(w, c1, AsksOf(Bottle, m.bottles), manifests);
    var c2 := Stage(w, c1, Bottle, m.bottles);
    SubmitAllSplits(w, c2, AsksOf(Manifest, m.manifests), events);
    var c3 := Stage(w, c2, Manifest, m.manifests);
    var c4 := Stage(w, c3, Event, m.events);
  }

  // ---------- snapshots of a live server ----------

  /**
   A from-scratch download of a server that keeps serving others: `runs(kind)` are the states that the
   list requests for a type met, and the types are downloaded in reverse dependency order.
  */
  ghost predicate LiveRuns(w: World, runs: Kind -> seq<Store>, start: Time) {
    && (forall kind, n | 0 <= n < |runs(kind)| :: LiveState(w, runs(kind)[n], start))
    && (forall m, n | 0 <= m < |runs(Event)| && 0 <= n < |runs(Manifest)| :: Grows(runs(Event)[m], runs(Manifest)[n]))
    && (forall m, n | 0 <= m < |runs(Manifest)| && 0 <= n < |runs(Bottle)| :: Grows(runs(Manifest)[m], runs(Bottle)[n]))
    && (forall m, n | 0 <= m < |runs(Bottle)| && 0 <= n < |runs(Blob)| :: Grows(runs(Bottle)[m], runs(Blob)[n]))
  }

  ghost predicate LiveState(w: World, s: Store, start: Time) {
    Valid(w, s) && Timed(s, start)
  }

  /** No table has two rows of the same instant, nor one from before the start. */
  ghost predicate Timed(s: Store, start: Time) {
    match s
    case Store(_, _, tables) =>
      forall kind :: DistinctTimes(tables[kind]) && forall i | 0 <= i < |tables[kind]| ::
        tables[kind][i].createdAt > start
  }

  function SnapshotOf(runs: Kind -> seq<Store>, start: Time, limit: int): Snapshot {
    Snapshot(
      Pages(runs(Blob), Blob, start, limit).0, Pages(runs(Bottle), Bottle, start, limit).0,
      Pages(runs(Manifest), Manifest, start, limit).0, Pages(runs(Event), Event, start, limit).0)
  }

  predicate AllEnded(runs: Kind -> seq<Store>, start: Time, limit: int) {
    forall kind :: Pages(runs(kind), kind, start, limit).1
  }

  lemma RowOfEntry(w: World, s: Store, kind: Kind, e: Entry) returns (i: nat)
    requires Valid(w, s) && e in Entries(s, s.tables[kind])
    ensures i < |s.tables[kind]| && e == EntryOf(s, s.tables[kind][i]) && HonestEntry(w, e)
    ensures s.tables[kind][i].dataId < |s.data| && e.data == s.data[s.tables[kind][i].dataId].raw
    ensures Resolve(w, s, kind, e.data) == Ok(s.tables[kind][i].detail)
  {
    EntriesExact(s, s.tables[kind]);
    i :| 0 <= i < |s.tables[kind]| && e == EntryOf(s, s.tables[kind][i]);
    assert ValidRows(w, s, kind);
    var row := s.tables[kind][i];
    assert ValidRow(w, s, kind, row);
    AliasesOfExact(s.digests, row.dataId);
    forall d | d in e.digests ensures d.alg.Available() && d == w.DigestOf(d.alg, e.data) {
      var j :| 0 <= j < |s.digests| && s.digests[j] == DigestRow(row.dataId, d);
    }
  }

  /** An object that a row of a live state refers to is downloaded later, under the digest referred to. */
  lemma ReferenceIsDownloaded(w: World, s: Store, kind: Kind, digest: Digest, states: seq<Store>, start: Time,
                              limit: int)
    returns (g: Entry)
    requires LiveState(w, s, start) && AllDistinct(states, kind)
    requires forall n | 0 <= n < |states| :: Grows(s, states[n])
    requires FindByDigest(s, kind, digest).Some? && Pages(states, kind, start, limit).1
    ensures g in Pages(states, kind, start, limit).0 && digest in g.digests
    ensures var row := s.tables[kind][FindByDigest(s, kind, digest).value];
            row.dataId < |s.data| && g.data == s.data[row.dataId].raw
  {
    var i := FindByDigest(s, kind, digest).value;
    assert ValidRows(w, s, kind);
    var row := s.tables[kind][i];
    assert ValidRow(w, s, kind, row);
    AliasesOfExact(s.digests, row.dataId);
    assert s.digests[IndexOfDigest(s.digests, digest).value] in s.digests;
    PagesComplete(w, s, states, kind, start, limit, i);
    g :| g in Pages(states, kind, start, limit).0 && Covers(g, EntryOf(s, row));
  }

  lemma PagesAreHonest(w: World, states: seq<Store>, kind: Kind, since: Time, limit: int)
    requires forall n | 0 <= n < |states| :: Valid(w, states[n])
    ensures AreHonest(w, Pages(states, kind, since, limit).0)
  {
    PagesListed(states, kind, since, limit);
    forall e | e in Pages(states, kind, since, limit).0 ensures HonestEntry(w, e) {
      var n :| 0 <= n < |states| && e in Entries(states[n], states[n].tables[kind]);
      var _ := RowOfEntry(w, states[n], kind, e);
    }
  }

  lemma LiveDownloadIsHonest(w: World, runs: Kind -> seq<Store>, start: Time, limit: int)
    requires LiveRuns(w, runs, start)
    ensures HonestSnapshot(w, SnapshotOf(runs, start, limit))
  {
    forall kind ensures AreHonest(w, Pages(runs(kind), kind, start, limit).0) {
      forall n | 0 <= n < |runs(kind)| ensures Valid(w, runs(kind)[n]) {
        assert LiveState(w, runs(kind)[n], start);
      }
      PagesAreHonest(w, runs(kind), kind, start, limit);
    }
  }

  lemma StateOfEntry(w: World, runs: Kind -> seq<Store>, start: Time, limit: int, kind: Kind, e: Entry) returns (n: nat)
    requires LiveRuns(w, runs, start)
    requires e in Pages(runs(kind), kind, start, limit).0
    ensures n < |runs(kind)| && LiveState(w, runs(kind)[n], start)
    ensures e in Entries(runs(kind)[n], runs(kind)[n].tables[kind])
    ensures AllDistinct(runs(kind), kind)
  {
    forall i | 0 <= i < |runs(kind)| ensures DistinctTimes(runs(kind)[i].tables[kind]) {
      assert LiveState(w, runs(kind)[i], start);
    }
    PagesListed(runs(kind), kind, start, limit);
    n :| 0 <= n < |runs(kind)| && e in Entries(runs(kind)[n], runs(kind)[n].tables[kind]);
  }

  lemma LiveDistinct(w: World, runs: Kind -> seq<Store>, start: Time, kind: Kind)
    requires LiveRuns(w, runs, start)
    ensures AllDistinct(runs(kind), kind)
  {
    forall i | 0 <= i < |runs(kind)| ensures DistinctTimes(runs(kind)[i].tables[kind]) {
      assert LiveState(w, runs(kind)[i], start);
    }
  }

  lemma ManifestEntry(w: World, s: Store, e: Entry)
    requires Valid(w, s) && e in Entries(s, s.tables[Manifest])
    ensures w.parseManifest(e.data).Parsed?
    ensures var doc := w.parseManifest(e.data).doc;
            var b := FindByDigest(s, Bottle, doc.config);
            && b.Some? && s.tables[Bottle][b.value].dataId < |s.data|
            && |doc.layers| == Parts(w, s.data[s.tables[Bottle][b.value].dataId].raw)
  {
    var _ := RowOfEntry(w, s, Manifest, e);
    LookupAgrees(w, s, Bottle, w.parseManifest(e.data).doc.config);
  }

  lemma EventEntry(w: World, s: Store, e: Entry)
    requires Valid(w, s) && e in Entries(s, s.tables[Event])
    ensures w.parseEvent(e.data).Parsed? && FindByDigest(s, Manifest, w.parseEvent(e.data).doc.manifest).Some?
  {
    var _ := RowOfEntry(w, s, Event, e);
  }

  lemma LiveManifest(w: World, runs: Kind -> seq<Store>, start: Time, limit: int, e: Entry)
    requires LiveRuns(w, runs, start) && AllEnded(runs, start, limit)
    requires e in SnapshotOf(runs, start, limit).manifests
    ensures HasBottle(w, SnapshotOf(runs, start, limit), e)
  {
    var n := StateOfEntry(w, runs, start, limit, Manifest, e);
    var s := runs(Manifest)[n];
    LiveDistinct(w, runs, start, Bottle);
    ManifestEntry(w, s, e);
    var b := ReferenceIsDownloaded(w, s, Bottle, w.parseManifest(e.data).doc.config, runs(Bottle), start, limit);
    assert b in SnapshotOf(runs, start, limit).bottles;
  }

  lemma LiveEvent(w: World, runs: Kind -> seq<Store>, start: Time, limit: int, e: Entry)
    requires LiveRuns(w, runs, start) && AllEnded(runs, start, limit)
    requires e in SnapshotOf(runs, start, limit).events
    ensures HasManifest(w, SnapshotOf(runs, start, limit), e)
  {
    var n := StateOfEntry(w, runs, start, limit, Event, e);
    var s := runs(Event)[n];
    LiveDistinct(w, runs, start, Manifest);
    EventEntry(w, s, e);
    var m := ReferenceIsDownloaded(w, s, Manifest, w.parseEvent(e.data).doc.manifest, runs(Manifest), start, limit);
    assert m in SnapshotOf(runs, start, limit).manifests;
  }

  /** The closure of a live download under dependencies, with any PUTs between the requests. */
  lemma LiveDownloadIsClosed(w: World, runs: Kind -> seq<Store>, start: Time, limit: int)
    requires LiveRuns(w, runs, start) && AllEnded(runs, start, limit)
    ensures HonestSnapshot(w, SnapshotOf(runs, start, limit)) && Closed(w, SnapshotOf(runs, start, limit))
  {
    LiveDownloadIsHonest(w, runs, start, limit);
    forall e | e in SnapshotOf(runs, start, limit).manifests ensures HasBottle(w, SnapshotOf(runs, start, limit), e) {
      LiveManifest(w, runs, start, limit, e);
    }
    forall e | e in SnapshotOf(runs, start, limit).events ensures HasManifest(w, SnapshotOf(runs, start, limit), e) {
      LiveEvent(w, runs, start, limit, e);
    }
  }

  /** Every artifact of every bottle was stored as a blob. */
  ghost predicate ArtifactsAreBlobs(s: Store) {
    forall b, a | 0 <= b < |s.tables[Bottle]| && s.tables[Bottle][b].detail.BottleDetail?
                  && a in s.tables[Bottle][b].detail.doc.artifacts :: FindByDigest(s, Blob, a).Some?
  }

  lemma ArtifactsAreDownloaded(w: World, runs: Kind -> seq<Store>, start: Time, limit: int, e: Entry)
    requires LiveRuns(w, runs, start) && AllEnded(runs, start, limit)
    requires forall n | 0 <= n < |runs(Bottle)| :: ArtifactsAreBlobs(runs(Bottle)[n])
    requires e in SnapshotOf(runs, start, limit).bottles
    ensures w.parseBottle(e.data).Parsed?
    ensures forall a | a in w.parseBottle(e.data).doc.artifacts :: a in NamesOf(SnapshotOf(runs, start, limit).blobs)
  {
    var n := StateOfEntry(w, runs, start, limit, Bottle, e);
    var s := runs(Bottle)[n];
    var b := RowOfEntry(w, s, Bottle, e);
    LiveDistinct(w, runs, start, Blob);
    assert ArtifactsAreBlobs(s);
    forall a | a in w.parseBottle(e.data).doc.artifacts ensures a in NamesOf(SnapshotOf(runs, start, limit).blobs) {
      var g := ReferenceIsDownloaded(w, s, Blob, a, runs(Blob), start, limit);
    }
  }

  lemma LiveBottle(w: World, c: Catalog, runs: Kind -> seq<Store>, start: Time, limit: int, i: nat)
    requires LiveRuns(w, runs, start) && AllEnded(runs, start, limit)
    requires forall n | 0 <= n < |runs(Bottle)| :: ArtifactsAreBlobs(runs(Bottle)[n])
    requires i < |SnapshotOf(runs, start, limit).bottles|
    ensures var m := SnapshotOf(runs, start, limit);
            Supplied(w, c.aliases.Keys + NamesOf(m.blobs), c.items, m.bottles, i)
  {
    ArtifactsAreDownloaded(w, runs, start, limit, SnapshotOf(runs, start, limit).bottles[i]);
  }

  /**
   The live mirror: a download during which others go on uploading is accepted by any server in
   dependency order without one refusal, if artifacts were stored as blobs.
  */
  lemma LiveMirrorIsAccepted(w: World, c: Catalog, runs: Kind -> seq<Store>, start: Time, limit: int)
    requires w.NoCollisions() && Sound(w, c)
    requires LiveRuns(w, runs, start) && AllEnded(runs, start, limit)
    requires forall n | 0 <= n < |runs(Bottle)| :: ArtifactsAreBlobs(runs(Bottle)[n])
    ensures Accepts(w, c, SnapshotAsks(SnapshotOf(runs, start, limit)))
  {
    LiveDownloadIsClosed(w, runs, start, limit);
    RestoreAcceptedIff(w, c, SnapshotOf(runs, start, limit));
    forall i | 0 <= i < |SnapshotOf(runs, start, limit).bottles|
      ensures Supplied(w, c.aliases.Keys + NamesOf(SnapshotOf(runs, start, limit).blobs), c.items,
                       SnapshotOf(runs, start, limit).bottles, i)
    {
      LiveBottle(w, c, runs, start, limit, i);
    }
  }

  // ---------- the round trip of a quiescent server ----------

  function Everything(s: Store): Snapshot {
    Snapshot(
      Entries(s, s.tables[Blob]), Entries(s, s.tables[Bottle]),
      Entries(s, s.tables[Manifest]), Entries(s, s.tables[Event]))
  }

  lemma EverythingOf(s: Store, kind: Kind)
    ensures Everything(s).Of(kind) == Entries(s, s.tables[kind])
  {
    match kind
    case Blob =>
    case Bottle =>
    case Manifest =>
    case Event =>
  }

  /** The catalog without the names of data that no table holds. */
  ghost function MirrorImage(c: Catalog): Catalog {
    Catalog(map d | d in c.aliases && (exists kind: Kind :: Stored(c, kind, d)) :: c.aliases[d], c.items)
  }

  ghost predicate Quiet(s: Store, runs: Kind -> seq<Store>) {
    forall kind :: |runs(kind)| > |s.tables[kind]| && forall n | 0 <= n < |runs(kind)| :: runs(kind)[n] == s
  }

  lemma {:induction false} EntriesNoMore(s: Store, rows: seq<Row>)
    ensures |Entries(s, rows)| <= |rows|
  {
    if rows != [] {
      EntriesNoMore(s, rows[..|rows| - 1]);
      InsertLength(Entries(s, rows[..|rows| - 1]), EntryOf(s, rows[|rows| - 1]));
    }
  }

  lemma {:induction false} InsertLength(entries: seq<Entry>, e: Entry)
    ensures |InsertByTime(entries, e)| == |entries| + 1
  {
    if entries != [] {
      InsertLength(entries[..|entries| - 1], e);
    }
  }

  lemma {:induction false} AllAfter(entries: seq<Entry>, since: Time)
    requires forall e | e in entries :: e.createdAt > since
    ensures After(entries, since) == entries
  {
    if entries != [] {
      var init, last := entries[..|entries| - 1], entries[|entries| - 1];
      assert entries == init + [last];
      AllAfter(init, since);
    }
  }

  lemma QuietTable(w: World, s: Store, states: seq<Store>, kind: Kind, start: Time, limit: int)
    requires LiveState(w, s, start) && limit >= 1
    requires |states| > |s.tables[kind]| && forall n | 0 <= n < |states| :: states[n] == s
    ensures Pages(states, kind, start, limit) == (Entries(s, s.tables[kind]), true)
  {
    var all := Entries(s, s.tables[kind]);
    EntriesExact(s, s.tables[kind]);
    forall e | e in all ensures e.createdAt > start {
      var i :| 0 <= i < |s.tables[kind]| && e == EntryOf(s, s.tables[kind][i]);
    }
    AllAfter(all, start);
    EntriesNoMore(s, s.tables[kind]);
    EntriesSorted(s, s.tables[kind]);
    DistinctHasNoTies(all, limit);
    QuiescentPages(s, states, kind, start, limit);
  }

  lemma QuietDownload(w: World, s: Store, runs: Kind -> seq<Store>, start: Time, limit: int)
    requires LiveState(w, s, start) && Quiet(s, runs) && limit >= 1
    ensures LiveRuns(w, runs, start) && AllEnded(runs, start, limit)
    ensures SnapshotOf(runs, start, limit) == Everything(s)
  {
    assert Grows(s, s) by {
      assert forall kind :: GrowsRows(s.tables[kind], s.tables[kind]);
    }
    forall kind ensures Pages(runs(kind), kind, start, limit) == (Entries(s, s.tables[kind]), true) {
      QuietTable(w, s, runs(kind), kind, start, limit);
    }
  }

  /** An alias row of a row's data is a name in its entry. */
  lemma AliasIsListed(s: Store, kind: Kind, i: nat, d: Digest)
    requires i < |s.tables[kind]| && DigestRow(s.tables[kind][i].dataId, d) in s.digests
    ensures d in NamesOf(Entries(s, s.tables[kind]))
  {
    var row := s.tables[kind][i];
    AliasesOfExact(s.digests, row.dataId);
    EntriesExact(s, s.tables[kind]);
    assert HasEntry(s, s.tables[kind], EntryOf(s, row));
  }

  lemma ListedIsAlias(s: Store, kind: Kind, d: Digest) returns (i: nat)
    requires d in NamesOf(Entries(s, s.tables[kind]))
    ensures i < |s.tables[kind]| && DigestRow(s.tables[kind][i].dataId, d) in s.digests
  {
    var e :| e in Entries(s, s.tables[kind]) && d in e.digests;
    EntriesExact(s, s.tables[kind]);
    i :| 0 <= i < |s.tables[kind]| && e == EntryOf(s, s.tables[kind][i]);
    AliasesOfExact(s.digests, s.tables[kind][i].dataId);
  }

  lemma ListedName(w: World, s: Store, kind: Kind, d: Digest)
    requires Valid(w, s)
    ensures d in NamesOf(Entries(s, s.tables[kind])) <==> Stored(Abs(s), kind, d)
  {
    LookupAgrees(w, s, kind, d);
    if FindByDigest(s, kind, d).Some? {
      assert s.digests[IndexOfDigest(s.digests, d).value] in s.digests;
      AliasIsListed(s, kind, FindByDigest(s, kind, d).value, d);
    }
    if d in NamesOf(Entries(s, s.tables[kind])) {
      var i := ListedIsAlias(s, kind, d);
      assert ValidDigests(w, s.data, s.digests);
      AliasIsFound(s, kind, i, d);
    }
  }

  lemma AliasIsFound(s: Store, kind: Kind, i: nat, d: Digest)
    requires forall m, n :: 0 <= m < n < |s.digests| ==> s.digests[m].digest != s.digests[n].digest
    requires i < |s.tables[kind]| && DigestRow(s.tables[kind][i].dataId, d) in s.digests
    ensures FindByDigest(s, kind, d).Some?
  {
    var j :| 0 <= j < |s.digests| && s.digests[j] == DigestRow(s.tables[kind][i].dataId, d);
    assert IndexOfDigest(s.digests, d) == Some(j);
  }

  lemma ListedData(w: World, s: Store, kind: Kind, b: Bytes)
    requires Valid(w, s)
    ensures (kind, b) in DataOf(kind, Entries(s, s.tables[kind])) <==> (kind, b) in Items(s)
  {
    if (kind, b) in Items(s) {
      var i :| 0 <= i < |s.tables[kind]| && Raw(s.data, s.tables[kind][i].dataId) == b;
      EntryGrowsInPlace(w, s, kind, i);
    }
    if (kind, b) in DataOf(kind, Entries(s, s.tables[kind])) {
      var e :| e in Entries(s, s.tables[kind]) && e.data == b;
      var i := RowOfEntry(w, s, kind, e);
      assert Raw(s.data, s.tables[kind][i].dataId) == b;
    }
  }

  lemma EntryGrowsInPlace(w: World, s: Store, kind: Kind, i: nat)
    requires Valid(w, s) && i < |s.tables[kind]|
    ensures EntryOf(s, s.tables[kind][i]) in Entries(s, s.tables[kind])
  {
    assert Grows(s, s) by {
      assert forall k :: GrowsRows(s.tables[k], s.tables[k]);
    }
    EntryGrows(w, s, s, kind, i);
  }

  lemma AnyKind(m: Snapshot, d: Digest, kind: Kind, b: Bytes)
    ensures d in NamesOf(m.blobs) + NamesOf(m.bottles) + NamesOf(m.manifests) + NamesOf(m.events)
            <==> exists k: Kind :: d in NamesOf(m.Of(k))
    ensures (kind, b) in DataOf(Blob, m.blobs) + DataOf(Bottle, m.bottles)
                         + DataOf(Manifest, m.manifests) + DataOf(Event, m.events)
            <==> (kind, b) in DataOf(kind, m.Of(kind))
  {
    assert m.Of(Blob) == m.blobs && m.Of(Bottle) == m.bottles
           && m.Of(Manifest) == m.manifests && m.Of(Event) == m.events;
    assert kind.Blob? || kind.Bottle? || kind.Manifest? || kind.Event?;
  }

  lemma ListedUnder(w: World, s: Store, kind: Kind, d: Digest)
    requires Valid(w, s)
    ensures d in NamesOf(Everything(s).Of(kind)) <==> Stored(Abs(s), kind, d)
  {
    EverythingOf(s, kind);
    ListedName(w, s, kind, d);
  }

  lemma ImageNames(w: World, s: Store, d: Digest)
    requires Valid(w, s)
    ensures d in MirrorImage(Abs(s)).aliases <==> exists kind: Kind :: d in NamesOf(Everything(s).Of(kind))
  {
    if kind: Kind :| d in NamesOf(Everything(s).Of(kind)) {
      ListedUnder(w, s, kind, d);
      assert Stored(Abs(s), kind, d);
    }
    if kind: Kind :| Stored(Abs(s), kind, d) {
      ListedUnder(w, s, kind, d);
      assert d in NamesOf(Everything(s).Of(kind));
    }
  }

  ghost predicate AddsAll(c: Catalog, m: Snapshot) {
    && c.aliases.Keys == NamesOf(m.blobs) + NamesOf(m.bottles) + NamesOf(m.manifests) + NamesOf(m.events)
    && c.items == DataOf(Blob, m.blobs) + DataOf(Bottle, m.bottles)
                  + DataOf(Manifest, m.manifests) + DataOf(Event, m.events)
  }

  lemma ImageHashes(w: World, c: Catalog)
    requires Sound(w, c)
    ensures var m := MirrorImage(c).aliases; forall d | d in m :: w.universe(m[d]) && d == w.DigestOf(d.alg, m[d])
  {
  }

  lemma SameNames(w: World, s: Store, c: Catalog)
    requires Valid(w, s) && AddsAll(c, Everything(s))
    ensures c.aliases.Keys == MirrorImage(Abs(s)).aliases.Keys
  {
    forall d ensures d in c.aliases.Keys <==> d in MirrorImage(Abs(s)).aliases.Keys {
      AnyKind(Everything(s), d, Blob, []);
      ImageNames(w, s, d);
    }
  }

  lemma RestoredNames(w: World, s: Store, c: Catalog)
    requires w.NoCollisions() && Valid(w, s) && Sound(w, c) && AddsAll(c, Everything(s))
    ensures c.aliases == MirrorImage(Abs(s)).aliases
  {
    SameNames(w, s, c);
    ValidIsSound(w, s);
    ImageHashes(w, Abs(s));
    HashesDetermine(w, c.aliases, MirrorImage(Abs(s)).aliases);
  }

  lemma RestoredItems(w: World, s: Store, c: Catalog)
    requires Valid(w, s) && AddsAll(c, Everything(s))
    ensures c.items == Items(s)
  {
    forall kind, b ensures (kind, b) in c.items <==> (kind, b) in Items(s) {
      AnyKind(Everything(s), Digest(CANONICAL, ""), kind, b);
      EverythingOf(s, kind);
      ListedData(w, s, kind, b);
    }
    forall x ensures x in c.items <==> x in Items(s) {
      assert x == (x.0, x.1);
    }
  }

  lemma RestoredImage(w: World, s: Store)
    requires w.NoCollisions() && Valid(w, s) && HonestSnapshot(w, Everything(s)) && Closed(w, Everything(s))
    requires Accepts(w, NOTHING, SnapshotAsks(Everything(s)))
    ensures SubmitAll(w, NOTHING, SnapshotAsks(Everything(s))).0 == MirrorImage(Abs(s))
  {
    var c := RestoredFromNothing(w, Everything(s));
    RestoredNames(w, s, c);
    RestoredItems(w, s, c);
  }

  lemma RestoredFromNothing(w: World, m: Snapshot) returns (c: Catalog)
    requires w.NoCollisions() && HonestSnapshot(w, m) && Accepts(w, NOTHING, SnapshotAsks(m))
    ensures c == SubmitAll(w, NOTHING, SnapshotAsks(m)).0 && Sound(w, c) && AddsAll(c, m)
  {
    c := SubmitAll(w, NOTHING, SnapshotAsks(m)).0;
    assert Sound(w, NOTHING);
    RestoredExactly(w, NOTHING, m);
    NothingBefore(c, m);
  }

  lemma NothingBefore(c: Catalog, m: Snapshot)
    requires c.aliases.Keys
          == NOTHING.aliases.Keys + NamesOf(m.blobs) + NamesOf(m.bottles) + NamesOf(m.manifests) + NamesOf(m.events)
    requires c.items
          == NOTHING.items + DataOf(Blob, m.blobs) + DataOf(Bottle, m.bottles)
             + DataOf(Manifest, m.manifests) + DataOf(Event, m.events)
    ensures AddsAll(c, m)
  {
    assert NOTHING.aliases.Keys == {} && NOTHING.items == {};
    assert {} + NamesOf(m.blobs) == NamesOf(m.blobs);
    assert {} + DataOf(Blob, m.blobs) == DataOf(Blob, m.blobs);
  }

  /**
   The mirror round trip. Downloading everything from a quiescent server and uploading it to an empty
   one is accepted exactly when every bottle finds its artifacts among the blobs and the bottles before
   it. It then reproduces every object, with all its names.
  */
  lemma MirrorRoundTrip(w: World, s: Store, runs: Kind -> seq<Store>, start: Time, limit: int)
    requires w.NoCollisions() && LiveState(w, s, start) && Quiet(s, runs) && limit >= 1
    ensures var m := SnapshotOf(runs, start, limit);
            && m == Everything(s)
            && (Accepts(w, NOTHING, SnapshotAsks(m)) <==> AllSupplied(w, NOTHING, m))
            && (Accepts(w, NOTHING, SnapshotAsks(m)) ==>
                  SubmitAll(w, NOTHING, SnapshotAsks(m)).0 == MirrorImage(Abs(s)))
  {
    var m := SnapshotOf(runs, start, limit);
    QuietDownload(w, s, runs, start, limit);
    LiveDownloadIsClosed(w, runs, start, limit);
    assert Sound(w, NOTHING);
    RestoreAcceptedIff(w, NOTHING, m);
    if Accepts(w, NOTHING, SnapshotAsks(m)) {
      RestoredImage(w, s);
    }
  }

  // ---------- artifacts that are no blobs ----------

  const MARK0: Bytes := [0]
  const MARK1: Bytes := [1]

  /** Two byte strings: the first is no object at all, the second a bottle with the first as artifact. */
  const TWO_STRINGS: World := World(
    (alg, b) => if b == MARK0 then "a" else "b",
    b => if b == MARK1 then Parsed(BottleDoc([], map[], [Digest(CANONICAL, "a")], [], [])) else Malformed,
    b => Malformed,
    b => Malformed,
    b => b == MARK0 || b == MARK1)

  const NAME0: Digest := Digest(CANONICAL, "a")
  const NAME1: Digest := Digest(CANONICAL, "b")
  const JUNK: Request := Request(Manifest, MARK0, NoParam, 1, 1)
  const NEEDS_JUNK: Request := Request(Bottle, MARK1, NoParam, 1, 2)
  const BEFORE: Store := Store([DataRow(MARK0, NAME0)], [DigestRow(0, NAME0)], NO_ROWS)

  lemma TwoStrings()
    ensures TWO_STRINGS.NoCollisions()
    ensures TWO_STRINGS.DigestOf(CANONICAL, MARK0) == NAME0 && TWO_STRINGS.DigestOf(CANONICAL, MARK1) == NAME1
    ensures NAME0 != NAME1
  {
    assert MARK0[0] != MARK1[0] && "a"[0] != "b"[0];
  }

  lemma JunkIsRefused()
    ensures Put(TWO_STRINGS, EMPTY, JUNK) == (BEFORE, Failed(BadRequest))
  {
    TwoStrings();
    assert EMPTY.data + [DataRow(MARK0, NAME0)] == BEFORE.data;
    assert EMPTY.digests + [DigestRow(0, NAME0)] == BEFORE.digests;
    assert Register(TWO_STRINGS, EMPTY, NAME0, MARK0) == (BEFORE, Ok(0));
  }

  lemma BottleIsAccepted()
    ensures Put(TWO_STRINGS, BEFORE, NEEDS_JUNK).1 == Created
  {
    var w := TWO_STRINGS;
    TwoStrings();
    var (s, id) := Register(w, BEFORE, NAME1, MARK1);
    assert FindAlias(BEFORE.digests, NAME0) == Some(0) && BEFORE.digests <= s.digests;
    FindAliasStable(BEFORE.digests, s.digests, NAME0);
    assert MissingArtifacts(s.digests, [NAME0]) == MissingArtifacts(s.digests, []) + [];
    assert Resolve(w, s, Bottle, MARK1).Ok?;
  }

  lemma OnlyEntries(s: Store, kind: Kind, e: Entry)
    requires Valid(TWO_STRINGS, s) && Items(s) == {(Bottle, MARK1)}
    requires e in Everything(s).Of(kind)
    ensures HonestEntry(TWO_STRINGS, e) && kind == Bottle && e.data == MARK1
  {
    EverythingOf(s, kind);
    var _ := RowOfEntry(TWO_STRINGS, s, kind, e);
    ListedData(TWO_STRINGS, s, kind, e.data);
    assert (kind, e.data) in DataOf(kind, Everything(s).Of(kind));
  }

  lemma OnlyTheBottle(s: Store)
    requires Valid(TWO_STRINGS, s) && Items(s) == {(Bottle, MARK1)}
    ensures HonestSnapshot(TWO_STRINGS, Everything(s)) && Closed(TWO_STRINGS, Everything(s))
  {
    var m := Everything(s);
    forall kind, e | e in m.Of(kind) ensures HonestEntry(TWO_STRINGS, e) && kind == Bottle {
      OnlyEntries(s, kind, e);
    }
    assert m.Of(Blob) == m.blobs && m.Of(Bottle) == m.bottles
           && m.Of(Manifest) == m.manifests && m.Of(Event) == m.events;
  }

  lemma TheBottleIsNotSupplied(s: Store)
    requires Valid(TWO_STRINGS, s) && Items(s) == {(Bottle, MARK1)}
    ensures !AllSupplied(TWO_STRINGS, NOTHING, Everything(s))
  {
    var w, m := TWO_STRINGS, Everything(s);
    ListedData(w, s, Bottle, MARK1);
    assert m.Of(Bottle) == m.bottles && m.Of(Blob) == m.blobs;
    var e :| e in m.bottles;
    assert m.bottles[0] in m.Of(Bottle);
    OnlyEntries(s, Bottle, m.bottles[0]);
    forall x | x in m.blobs ensures false {
      OnlyEntries(s, Blob, x);
    }
    TwoStrings();
    assert m.bottles[0].digests[0] in m.bottles[0].digests;
    assert NAME0 in w.parseBottle(MARK1).doc.artifacts;
    assert !Supplied(w, NOTHING.aliases.Keys + NamesOf(m.blobs), NOTHING.items, m.bottles, 0);
  }

  lemma OnlyABottleIsRefused(s: Store)
    requires Valid(TWO_STRINGS, s) && Items(s) == {(Bottle, MARK1)}
    ensures !Accepts(TWO_STRINGS, NOTHING, SnapshotAsks(Everything(s)))
  {
    TwoStrings();
    OnlyTheBottle(s);
    TheBottleIsNotSupplied(s);
    RestoreAcceptedIff(TWO_STRINGS, NOTHING, Everything(s));
  }

  lemma TheBottleIsStored() returns (s: Store)
    ensures Put(TWO_STRINGS, BEFORE, NEEDS_JUNK) == (s, Created)
    ensures Valid(TWO_STRINGS, BEFORE) && Valid(TWO_STRINGS, s) && Items(s) == {(Bottle, MARK1)}
  {
    var w := TWO_STRINGS;
    TwoStrings();
    JunkIsRefused();
    BottleIsAccepted();
    EmptyIsValid(w);
    PutValid(w, EMPTY, JUNK);
    PutRefines(w, BEFORE, NEEDS_JUNK);
    PutValid(w, BEFORE, NEEDS_JUNK);
    s := Put(w, BEFORE, NEEDS_JUNK).0;
  }

  /**
   A store that cannot be mirrored: a refused PUT leaves a name behind, a bottle is accepted because of
   it, and no download carries that name.
  */
  lemma UnmirrorableStore()
    ensures var w := TWO_STRINGS;
            var s := Put(w, Put(w, EMPTY, JUNK).0, NEEDS_JUNK).0;
            && w.NoCollisions() && Valid(w, s)
            && Put(w, EMPTY, JUNK).1.Failed? && Put(w, Put(w, EMPTY, JUNK).0, NEEDS_JUNK).1 == Created
            && !Accepts(w, NOTHING, SnapshotAsks(Everything(s)))
  {
    TwoStrings();
    JunkIsRefused();
    var s := TheBottleIsStored();
    OnlyABottleIsRefused(s);
  }
}
