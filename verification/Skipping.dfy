/**
 An upload that skips what misses something: exactly what it adds of a closed snapshot.
*/
module Skipping {
  import opened Types
  import opened Catalog
  import opened Submissions
  import opened Listing
  import opened Restore

  // ---------- a run that is never stopped ----------

  /** Whatever is stored, the object is refused for missing digests only. */
  ghost predicate OnlyMissing(w: World, kind: Kind, bytes: Bytes) {
    forall c | Sound(w, c) && Refusal(w, c, kind, bytes).Some? :: Refusal(w, c, kind, bytes).value.Missing?
  }

  ghost predicate AllOnlyMissing(w: World, asks: seq<Ask>) {
    forall i | 0 <= i < |asks| :: OnlyMissing(w, asks[i].kind, asks[i].bytes)
  }

  /** The first submission does not stop the run. */
  lemma FirstRuns(w: World, c: Catalog, asks: seq<Ask>)
    requires Sound(w, c) && w.NoCollisions() && AllHonest(w, asks) && AllOnlyMissing(w, asks) && asks != []
    ensures var c1 := Submit(w, c, asks[0].kind, asks[0].digest, asks[0].bytes).0;
            && Sound(w, c1) && Extends(c, c1)
            && SubmitSkipping(w, c, asks, true) == SubmitSkipping(w, c1, asks[1..], true)
    ensures AllHonest(w, asks[1..]) && AllOnlyMissing(w, asks[1..])
  {
    var a := asks[0];
    assert Honest(w, a) && OnlyMissing(w, a.kind, a.bytes);
    SubmitSound(w, c, a.kind, a.digest, a.bytes);
  }

  lemma {:induction false} RunsThrough(w: World, c: Catalog, asks: seq<Ask>)
    requires Sound(w, c) && w.NoCollisions() && AllHonest(w, asks) && AllOnlyMissing(w, asks)
    ensures var (c', error) := SubmitSkipping(w, c, asks, true);
            error.None? && Sound(w, c') && Extends(c, c')
    decreases asks
  {
    if asks != [] {
      FirstRuns(w, c, asks);
      RunsThrough(w, Submit(w, c, asks[0].kind, asks[0].digest, asks[0].bytes).0, asks[1..]);
    }
  }

  /** What is acceptable at the start is added. */
  lemma {:induction false} AcceptableIsAdded(w: World, c: Catalog, asks: seq<Ask>, i: nat)
    requires Sound(w, c) && w.NoCollisions() && AllHonest(w, asks) && AllOnlyMissing(w, asks)
    requires i < |asks| && Refusal(w, c, asks[i].kind, asks[i].bytes) == None
    ensures (asks[i].kind, asks[i].bytes) in SubmitSkipping(w, c, asks, true).0.items
    decreases asks
  {
    var c1 := Submit(w, c, asks[0].kind, asks[0].digest, asks[0].bytes).0;
    FirstRuns(w, c, asks);
    if i > 0 {
      AcceptanceStable(w, c, c1, asks[i].kind, asks[i].bytes);
      AcceptableIsAdded(w, c1, asks[1..], i - 1);
    } else {
      assert Honest(w, asks[0]);
      AcceptedAtOnce(w, c, asks[0]);
      RunsThrough(w, c1, asks[1..]);
    }
  }

  lemma AcceptedAtOnce(w: World, c: Catalog, a: Ask)
    requires Sound(w, c) && w.NoCollisions() && Honest(w, a) && Refusal(w, c, a.kind, a.bytes) == None
    ensures (a.kind, a.bytes) in Submit(w, c, a.kind, a.digest, a.bytes).0.items
  {
    SubmitSound(w, c, a.kind, a.digest, a.bytes);
    AcceptanceStable(w, c, Submit(w, c, a.kind, a.digest, a.bytes).0, a.kind, a.bytes);
  }

  // ---------- one type ----------

  ghost predicate EntriesOnlyMissing(w: World, kind: Kind, entries: seq<Entry>) {
    forall e | e in entries :: HonestEntry(w, e) && OnlyMissing(w, kind, e.data)
  }

  lemma {:induction false} AsksOnlyMissing(w: World, kind: Kind, entries: seq<Entry>)
    requires EntriesOnlyMissing(w, kind, entries)
    ensures AllOnlyMissing(w, AsksOf(kind, entries))
  {
    if entries != [] {
      AsksOnlyMissing(w, kind, entries[..|entries| - 1]);
      assert entries[|entries| - 1] in entries;
    }
  }

  lemma EntryIsAdded(w: World, c: Catalog, kind: Kind, entries: seq<Entry>, e: Entry)
    requires Sound(w, c) && w.NoCollisions() && EntriesOnlyMissing(w, kind, entries)
    requires e in entries && Refusal(w, c, kind, e.data) == None
    ensures (kind, e.data) in SubmitSkipping(w, c, AsksOf(kind, entries), true).0.items
  {
    var asks := AsksOf(kind, entries);
    AsksOfExact(w, kind, entries);
    AsksOnlyMissing(w, kind, entries);
    assert (kind, e.data) in DataOf(kind, entries);
    var a :| a in asks && (a.kind, a.bytes) == (kind, e.data);
    var i :| 0 <= i < |asks| && asks[i] == a;
    AcceptableIsAdded(w, c, asks, i);
  }

  /** Skipping through one type: what is known after it. */
  lemma SkipStage(w: World, c: Catalog, kind: Kind, entries: seq<Entry>) returns (c': Catalog)
    requires Sound(w, c) && w.NoCollisions() && EntriesOnlyMissing(w, kind, entries)
    ensures SubmitSkipping(w, c, AsksOf(kind, entries), true) == (c', None)
    ensures Sound(w, c') && Extends(c, c')
    ensures c'.aliases.Keys == c.aliases.Keys + NamesOf(entries)
    ensures c.items <= c'.items <= c.items + DataOf(kind, entries)
  {
    var asks := AsksOf(kind, entries);
    AsksOfExact(w, kind, entries);
    AsksOnlyMissing(w, kind, entries);
    RunsThrough(w, c, asks);
    SkippingAddsNames(w, c, asks, true);
    c' := SubmitSkipping(w, c, asks, true).0;
  }

  // ---------- bottles ----------

  /**
   The i-th bottle finds its artifacts: among the names known before, and those of the bottles up to it, its
   own included.
  */
  predicate Found(w: World, known: set<Digest>, entries: seq<Entry>, i: nat)
    requires i < |entries|
  {
    match w.parseBottle(entries[i].data)
    case Parsed(doc) => forall a | a in doc.artifacts :: a in known || a in NamesOf(entries[..i + 1])
    case _ => false
  }

  function FoundOf(w: World, known: set<Digest>, entries: seq<Entry>): set<(Kind, Bytes)> {
    set i | 0 <= i < |entries| && Found(w, known, entries, i) :: (Bottle, entries[i].data)
  }

  lemma BottleSubmitted(w: World, c: Catalog, d: Digest, bytes: Bytes)
    requires Sound(w, c) && w.NoCollisions() && Honest(w, Ask(Bottle, d, bytes)) && w.parseBottle(bytes).Parsed?
    ensures var c' := Submit(w, c, Bottle, d, bytes).0;
            (Bottle, bytes) in c'.items <==> forall a | a in w.parseBottle(bytes).doc.artifacts :: a in c'.aliases
  {
    var named := c.(aliases := c.aliases[d := bytes]);
    SubmitSound(w, c, Bottle, d, bytes);
    MissingFromIff(named, w.parseBottle(bytes).doc.artifacts);
    MissingFromIff(Submit(w, c, Bottle, d, bytes).0, w.parseBottle(bytes).doc.artifacts);
  }

  /** A bottle submitted under all its names is added exactly if its artifacts are named after that. */
  lemma BottleSkipping(w: World, c: Catalog, asks: seq<Ask>, bytes: Bytes)
    requires Sound(w, c) && w.NoCollisions() && AllHonest(w, asks) && AllOnlyMissing(w, asks) && asks != []
    requires forall i | 0 <= i < |asks| :: asks[i].kind == Bottle && asks[i].bytes == bytes
    requires w.parseBottle(bytes).Parsed?
    ensures var c' := SubmitSkipping(w, c, asks, true).0;
            (Bottle, bytes) in c'.items <==> forall a | a in w.parseBottle(bytes).doc.artifacts :: a in c'.aliases
  {
    var init, last := asks[..|asks| - 1], asks[|asks| - 1];
    assert asks == init + [last] && Honest(w, last);
    RunsThrough(w, c, init);
    LastSubmitted(w, c, init, last);
    BottleSubmitted(w, SubmitSkipping(w, c, init, true).0, last.digest, bytes);
  }

  lemma LastSubmitted(w: World, c: Catalog, init: seq<Ask>, last: Ask)
    requires SubmitSkipping(w, c, init, true).1.None?
    ensures SubmitSkipping(w, c, init + [last], true).0
         == Submit(w, SubmitSkipping(w, c, init, true).0, last.kind, last.digest, last.bytes).0
  {
    SkippingSplits(w, c, init, [last], true);
    assert [last][1..] == [];
  }

  lemma {:induction false} BottlesSkipping(w: World, c: Catalog, entries: seq<Entry>)
    requires Sound(w, c) && w.NoCollisions() && EntriesOnlyMissing(w, Bottle, entries)
    requires forall e | e in entries :: w.parseBottle(e.data).Parsed?
    ensures SubmitSkipping(w, c, AsksOf(Bottle, entries), true).0.items
         == c.items + FoundOf(w, c.aliases.Keys, entries)
  {
    if entries != [] {
      var n := |entries| - 1;
      assert forall e | e in entries[..n] :: e in entries;
      BottlesSkipping(w, c, entries[..n]);
      LastBottleSkipping(w, c, entries);
      FoundOneMore(w, c.aliases.Keys, entries);
    } else {
      assert FoundOf(w, c.aliases.Keys, []) == {};
    }
  }

  lemma LastBottleSkipping(w: World, c: Catalog, entries: seq<Entry>)
    requires Sound(w, c) && w.NoCollisions() && EntriesOnlyMissing(w, Bottle, entries) && entries != []
    requires forall e | e in entries :: w.parseBottle(e.data).Parsed?
    ensures var n := |entries| - 1;
            SubmitSkipping(w, c, AsksOf(Bottle, entries), true).0.items
            == SubmitSkipping(w, c, AsksOf(Bottle, entries[..n]), true).0.items
               + if Found(w, c.aliases.Keys, entries, n) then {(Bottle, entries[n].data)} else {}
  {
    var n := |entries| - 1;
    assert entries[n] in entries && forall e | e in entries[..n] :: e in entries;
    var c1 := SkipStage(w, c, Bottle, entries[..n]);
    var c' := SkipStage(w, c, Bottle, entries);
    SkippingSplits(w, c, AsksOf(Bottle, entries[..n]), EntryAsks(Bottle, entries[n]), true);
    OneMoreBottle(w, c1, c', entries[n]);
    assert entries[..n + 1] == entries;
  }

  lemma OneMoreBottle(w: World, c: Catalog, c': Catalog, e: Entry)
    requires Sound(w, c) && w.NoCollisions() && HonestEntry(w, e) && OnlyMissing(w, Bottle, e.data)
    requires w.parseBottle(e.data).Parsed? && c' == SubmitSkipping(w, c, EntryAsks(Bottle, e), true).0
    ensures c'.items == c.items + if forall a | a in w.parseBottle(e.data).doc.artifacts :: a in c'.aliases
                                  then {(Bottle, e.data)} else {}
  {
    var asks := EntryAsks(Bottle, e);
    EntryAsksExact(w, Bottle, e);
    assert AllOnlyMissing(w, asks);
    RunsThrough(w, c, asks);
    SkippingAddsNames(w, c, asks, true);
    BottleSkipping(w, c, asks, e.data);
  }

  lemma FoundOneMore(w: World, known: set<Digest>, entries: seq<Entry>)
    requires entries != []
    ensures var n := |entries| - 1;
            FoundOf(w, known, entries)
            == FoundOf(w, known, entries[..n])
               + if Found(w, known, entries, n) then {(Bottle, entries[n].data)} else {}
  {
    var n := |entries| - 1;
    forall i: nat | i < n ensures Found(w, known, entries[..n], i) <==> Found(w, known, entries, i) {
      assert entries[..n][..i + 1] == entries[..i + 1];
    }
  }

  // ---------- manifests and events ----------

  /** The object that this one depends on is stored under the digest it names. */
  predicate DependencyStored(w: World, c: Catalog, kind: Kind, bytes: Bytes) {
    match kind
    case Manifest => w.parseManifest(bytes).Parsed? && Stored(c, Bottle, w.parseManifest(bytes).doc.config)
    case Event => w.parseEvent(bytes).Parsed? && Stored(c, Manifest, w.parseEvent(bytes).doc.manifest)
    case _ => true
  }

  function DependentsOf(w: World, c: Catalog, kind: Kind, entries: seq<Entry>): set<(Kind, Bytes)> {
    set e | e in entries && DependencyStored(w, c, kind, e.data) :: (kind, e.data)
  }

  lemma ManifestOnlyMissing(w: World, m: Snapshot, e: Entry)
    requires w.NoCollisions() && HonestSnapshot(w, m) && HasBottle(w, m, e)
    ensures OnlyMissing(w, Manifest, e.data)
    ensures forall c | Sound(w, c) && DependencyStored(w, c, Manifest, e.data) ::
              Refusal(w, c, Manifest, e.data) == None
  {
    var doc := w.parseManifest(e.data).doc;
    var b :| b in m.bottles && doc.config in b.digests && |doc.layers| == Parts(w, b.data);
    assert HonestEntry(w, b);
    forall c | Sound(w, c) && doc.config in c.aliases ensures c.aliases[doc.config] == b.data {
      NamesItsBytes(w, c, doc.config, b.data);
    }
  }

  lemma EventOnlyMissing(w: World, m: Snapshot, e: Entry)
    requires HasManifest(w, m, e)
    ensures OnlyMissing(w, Event, e.data)
    ensures forall c | DependencyStored(w, c, Event, e.data) :: Refusal(w, c, Event, e.data) == None
  {
  }

  /** What depends on another type is added exactly if that is stored. */
  lemma DependentsSkipping(w: World, c: Catalog, kind: Kind, entries: seq<Entry>)
    requires Sound(w, c) && w.NoCollisions() && EntriesOnlyMissing(w, kind, entries) && (kind.Manifest? || kind.Event?)
    requires forall e | e in entries && DependencyStored(w, c, kind, e.data) :: Refusal(w, c, kind, e.data) == None
    requires forall e | e in entries :: DependencyNamed(w, c, kind, e.data)
    ensures SubmitSkipping(w, c, AsksOf(kind, entries), true).0.items == c.items + DependentsOf(w, c, kind, entries)
  {
    var c' := SkipStage(w, c, kind, entries);
    forall e | e in entries && DependencyStored(w, c, kind, e.data) ensures (kind, e.data) in c'.items {
      EntryIsAdded(w, c, kind, entries, e);
    }
    forall x | x in c'.items && x !in c.items ensures x in DependentsOf(w, c, kind, entries) {
      var e :| e in entries && x == (kind, e.data);
      assert Refusal(w, c', kind, e.data) == None;
      StoredBefore(w, c, c', kind, e.data);
    }
  }

  /** The digest of the dependency is a name of something. */
  predicate DependencyNamed(w: World, c: Catalog, kind: Kind, bytes: Bytes) {
    match kind
    case Manifest => w.parseManifest(bytes).Parsed? && w.parseManifest(bytes).doc.config in c.aliases
    case Event => w.parseEvent(bytes).Parsed? && w.parseEvent(bytes).doc.manifest in c.aliases
    case _ => true
  }

  lemma StoredBefore(w: World, c: Catalog, c': Catalog, kind: Kind, bytes: Bytes)
    requires Extends(c, c') && DependencyNamed(w, c, kind, bytes)
    requires forall k, b | (k, b) in c'.items && (k, b) !in c.items :: k == kind
    ensures DependencyStored(w, c', kind, bytes) <==> DependencyStored(w, c, kind, bytes)
  {
  }

  // ---------- the whole mirror ----------

  ghost predicate BottlesParse(w: World, m: Snapshot) {
    forall e | e in m.bottles :: w.parseBottle(e.data).Parsed?
  }

  lemma SnapshotOnlyMissing(w: World, m: Snapshot)
    requires w.NoCollisions() && HonestSnapshot(w, m) && Closed(w, m) && BottlesParse(w, m)
    ensures EntriesOnlyMissing(w, Blob, m.blobs) && EntriesOnlyMissing(w, Bottle, m.bottles)
    ensures EntriesOnlyMissing(w, Manifest, m.manifests) && EntriesOnlyMissing(w, Event, m.events)
  {
    forall e | e in m.manifests ensures OnlyMissing(w, Manifest, e.data) {
      ManifestOnlyMissing(w, m, e);
    }
    forall e | e in m.events ensures OnlyMissing(w, Event, e.data) {
      EventOnlyMissing(w, m, e);
    }
  }

  lemma BlobsSkipping(w: World, c: Catalog, entries: seq<Entry>)
    requires Sound(w, c) && w.NoCollisions() && EntriesOnlyMissing(w, Blob, entries)
    ensures SubmitSkipping(w, c, AsksOf(Blob, entries), true).0.items == c.items + DataOf(Blob, entries)
  {
    var c' := SkipStage(w, c, Blob, entries);
    forall e | e in entries ensures (Blob, e.data) in c'.items {
      EntryIsAdded(w, c, Blob, entries, e);
    }
  }

  lemma ManifestsSkipping(w: World, c: Catalog, m: Snapshot)
    requires Sound(w, c) && w.NoCollisions() && HonestSnapshot(w, m) && Closed(w, m) && BottlesParse(w, m)
    requires NamesOf(m.bottles) <= c.aliases.Keys
    ensures SubmitSkipping(w, c, AsksOf(Manifest, m.manifests), true).0.items
         == c.items + DependentsOf(w, c, Manifest, m.manifests)
    ensures forall e | e in m.manifests :: DependencyNamed(w, c, Manifest, e.data)
  {
    SnapshotOnlyMissing(w, m);
    forall e | e in m.manifests
      ensures DependencyNamed(w, c, Manifest, e.data)
      ensures DependencyStored(w, c, Manifest, e.data) ==> Refusal(w, c, Manifest, e.data) == None
    {
      assert HasBottle(w, m, e);
      ManifestOnlyMissing(w, m, e);
      var config := w.parseManifest(e.data).doc.config;
      assert config in NamesOf(m.bottles);
    }
    DependentsSkipping(w, c, Manifest, m.manifests);
  }

  lemma EventsSkipping(w: World, c: Catalog, m: Snapshot)
    requires Sound(w, c) && w.NoCollisions() && HonestSnapshot(w, m) && Closed(w, m) && BottlesParse(w, m)
    requires NamesOf(m.manifests) <= c.aliases.Keys
    ensures SubmitSkipping(w, c, AsksOf(Event, m.events), true).0.items == c.items + DependentsOf(w, c, Event, m.events)
    ensures forall e | e in m.events :: DependencyNamed(w, c, Event, e.data)
  {
    SnapshotOnlyMissing(w, m);
    forall e | e in m.events
      ensures DependencyNamed(w, c, Event, e.data)
      ensures DependencyStored(w, c, Event, e.data) ==> Refusal(w, c, Event, e.data) == None
    {
      assert HasManifest(w, m, e);
      EventOnlyMissing(w, m, e);
      assert w.parseEvent(e.data).doc.manifest in NamesOf(m.manifests);
    }
    DependentsSkipping(w, c, Event, m.events);
  }

  /** What an upload that skips adds of a snapshot: the last component is the catalog afterwards. */
  function Kept(w: World, c: Catalog, m: Snapshot, c': Catalog): set<(Kind, Bytes)> {
    DataOf(Blob, m.blobs)
    + FoundOf(w, c.aliases.Keys + NamesOf(m.blobs), m.bottles)
    + DependentsOf(w, c', Manifest, m.manifests)
    + DependentsOf(w, c', Event, m.events)
  }

  /**
   An upload that skips runs to its end over a closed snapshot, whatever the server holds. It leaves all names,
   every blob, exactly the bottles that find their artifacts, exactly the manifests whose bottle is stored
   afterwards, and exactly the events whose manifest is.
  */
  lemma SkippingRestores(w: World, c: Catalog, m: Snapshot)
    requires Sound(w, c) && w.NoCollisions() && HonestSnapshot(w, m) && Closed(w, m) && BottlesParse(w, m)
    ensures var (c', error) := SubmitSkipping(w, c, SnapshotAsks(m), true);
            && error.None? && Sound(w, c')
            && c'.aliases.Keys
               == c.aliases.Keys + NamesOf(m.blobs) + NamesOf(m.bottles) + NamesOf(m.manifests) + NamesOf(m.events)
            && c'.items == c.items + Kept(w, c, m, c')
  {
    SnapshotOnlyMissing(w, m);
    var c1 := SkipStage(w, c, Blob, m.blobs);
    var c2 := SkipStage(w, c1, Bottle, m.bottles);
    var c3 := SkipStage(w, c2, Manifest, m.manifests);
    var c4 := SkipStage(w, c3, Event, m.events);
    StagesFollow(w, c, m, c1, c2, c3, c4);
    BlobsSkipping(w, c, m.blobs);
    BottlesSkipping(w, c1, m.bottles);
    ManifestsSkipping(w, c2, m);
    EventsSkipping(w, c3, m);
    LaterDependents(w, c2, c3, c4, m);
    AllKept(w, c, m, c1, c2, c3, c4);
  }

  lemma AllKept(w: World, c: Catalog, m: Snapshot, c1: Catalog, c2: Catalog, c3: Catalog, c4: Catalog)
    requires c1.items == c.items + DataOf(Blob, m.blobs)
    requires c1.aliases.Keys == c.aliases.Keys + NamesOf(m.blobs)
    requires c2.items == c1.items + FoundOf(w, c1.aliases.Keys, m.bottles)
    requires c3.items == c2.items + DependentsOf(w, c4, Manifest, m.manifests)
    requires c4.items == c3.items + DependentsOf(w, c4, Event, m.events)
    ensures c4.items == c.items + Kept(w, c, m, c4)
  {
  }

  lemma StagesFollow(w: World, c: Catalog, m: Snapshot, c1: Catalog, c2: Catalog, c3: Catalog, c4: Catalog)
    requires SubmitSkipping(w, c, AsksOf(Blob, m.blobs), true) == (c1, None)
    requires SubmitSkipping(w, c1, AsksOf(Bottle, m.bottles), true) == (c2, None)
    requires SubmitSkipping(w, c2, AsksOf(Manifest, m.manifests), true) == (c3, None)
    requires SubmitSkipping(w, c3, AsksOf(Event, m.events), true) == (c4, None)
    ensures SubmitSkipping(w, c, SnapshotAsks(m), true) == (c4, None)
  {
    var events := AsksOf(Event, m.events);
    var manifests := AsksOf(Manifest, m.manifests) + events;
    SkippingSplits(w, c2, AsksOf(Manifest, m.manifests), events, true);
    SkippingSplits(w, c1, AsksOf(Bottle, m.bottles), manifests, true);
    SkippingSplits(w, c, AsksOf(Blob, m.blobs), AsksOf(Bottle, m.bottles) + manifests, true);
  }

  /** What is stored for a type when it is submitted is stored for it at the end. */
  lemma LaterDependents(w: World, c2: Catalog, c3: Catalog, c4: Catalog, m: Snapshot)
    requires Extends(c2, c3) && c3.items <= c2.items + DataOf(Manifest, m.manifests)
    requires Extends(c3, c4) && c4.items <= c3.items + DataOf(Event, m.events)
    requires forall e | e in m.manifests :: DependencyNamed(w, c2, Manifest, e.data)
    requires forall e | e in m.events :: DependencyNamed(w, c3, Event, e.data)
    ensures DependentsOf(w, c4, Manifest, m.manifests) == DependentsOf(w, c2, Manifest, m.manifests)
    ensures DependentsOf(w, c4, Event, m.events) == DependentsOf(w, c3, Event, m.events)
  {
    forall e | e in m.manifests
      ensures DependencyStored(w, c4, Manifest, e.data) <==> DependencyStored(w, c2, Manifest, e.data)
    {
      var config := w.parseManifest(e.data).doc.config;
      assert (Bottle, c2.aliases[config]) in c4.items <==> (Bottle, c2.aliases[config]) in c2.items;
    }
    forall e | e in m.events
      ensures DependencyStored(w, c4, Event, e.data) <==> DependencyStored(w, c3, Event, e.data)
    {
      StoredBefore(w, c3, c4, Event, e.data);
    }
  }

  lemma {:induction false} StopsAtUnreadable(w: World, c: Catalog, asks: seq<Ask>, i: nat)
    requires Sound(w, c) && w.NoCollisions() && AllHonest(w, asks) && i < |asks|
    requires asks[i].kind == Bottle && !w.parseBottle(asks[i].bytes).Parsed?
    ensures SubmitSkipping(w, c, asks, true).1.Some?
    decreases asks
  {
    var a := asks[0];
    assert Honest(w, a);
    var (c1, answer) := Submit(w, c, a.kind, a.digest, a.bytes);
    SubmitSound(w, c, a.kind, a.digest, a.bytes);
    if i == 0 {
      assert (Bottle, a.bytes) in c.items ==> Refusal(w, c, Bottle, a.bytes) == None;
    } else if !(answer.Failed? && !answer.error.Missing?) {
      StopsAtUnreadable(w, c1, asks[1..], i - 1);
    }
  }

  lemma BottleAsked(w: World, m: Snapshot, e: Entry) returns (i: nat)
    requires HonestSnapshot(w, m) && e in m.bottles
    ensures i < |SnapshotAsks(m)| && SnapshotAsks(m)[i].kind == Bottle && SnapshotAsks(m)[i].bytes == e.data
  {
    var asks := AsksOf(Bottle, m.bottles);
    AsksOfExact(w, Bottle, m.bottles);
    assert (Bottle, e.data) in DataOf(Bottle, m.bottles);
    var a :| a in asks && (a.kind, a.bytes) == (Bottle, e.data);
    var j :| 0 <= j < |asks| && asks[j] == a;
    i := |AsksOf(Blob, m.blobs)| + j;
  }

  lemma SnapshotIsHonest(w: World, m: Snapshot)
    requires HonestSnapshot(w, m)
    ensures AllHonest(w, SnapshotAsks(m))
  {
    AsksOfExact(w, Blob, m.blobs);
    AsksOfExact(w, Bottle, m.bottles);
    AsksOfExact(w, Manifest, m.manifests);
    AsksOfExact(w, Event, m.events);
  }

  /** Nothing but a bottle that cannot be parsed stops such an upload. */
  lemma SkippingEndsIff(w: World, c: Catalog, m: Snapshot)
    requires Sound(w, c) && w.NoCollisions() && HonestSnapshot(w, m) && Closed(w, m)
    ensures SubmitSkipping(w, c, SnapshotAsks(m), true).1.None? <==> BottlesParse(w, m)
  {
    if BottlesParse(w, m) {
      SkippingRestores(w, c, m);
    } else {
      var e :| e in m.bottles && !w.parseBottle(e.data).Parsed?;
      var i := BottleAsked(w, m, e);
      SnapshotIsHonest(w, m);
      StopsAtUnreadable(w, c, SnapshotAsks(m), i);
    }
  }
}
