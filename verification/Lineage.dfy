/**
 The family tree of bottles: parents and children through any alias, generation by generation.
*/
module Lineage {
  import opened Types
  import opened Store
  import opened Invariant

  // ---------- the queries ----------

  predicate IsBottle(s: Store, b: nat) {
    b < |s.tables[Bottle]|
  }

  function DataId(s: Store, b: nat): nat
    requires IsBottle(s, b)
  {
    s.tables[Bottle][b].dataId
  }

  function SourceDigests(s: Store, b: nat): set<Digest>
    requires IsBottle(s, b)
  {
    match s.tables[Bottle][b].detail
    case BottleDetail(doc, _) => set source | source in doc.sources && source.bottle.Some? :: source.bottle.value
    case _ => {}
  }

  /** The alias table has this name for this data. */
  predicate Named(s: Store, dataId: nat, d: Digest) {
    DigestRow(dataId, d) in s.digests
  }

  /** The data joins with an alias that is one of the digests. */
  predicate NamedBy(s: Store, dataId: nat, digests: set<Digest>) {
    exists d :: d in digests && Named(s, dataId, d)
  }

  /** The digests that the bottles with one of the given names list as sources. */
  function ParentDigests(s: Store, digests: set<Digest>): set<Digest> {
    set c: nat, d | 0 <= c < |s.tables[Bottle]| && NamedBy(s, DataId(s, c), digests) && d in SourceDigests(s, c) :: d
  }

  /** Bottles that are named by one of those digests. */
  function FindParents(s: Store, digests: set<Digest>): set<nat> {
    var wanted := ParentDigests(s, digests);
    set p: nat | 0 <= p < |s.tables[Bottle]| && NamedBy(s, DataId(s, p), wanted)
  }

  /** All names of the data that the given digests name. */
  function ChildDigests(s: Store, digests: set<Digest>): set<Digest> {
    set r | r in s.digests && NamedBy(s, r.dataId, digests) :: r.digest
  }

  /** Bottles that list one of those digests as a source. */
  function FindChildren(s: Store, digests: set<Digest>): set<nat> {
    var wanted := ChildDigests(s, digests);
    set c: nat, d | 0 <= c < |s.tables[Bottle]| && d in SourceDigests(s, c) && d in wanted :: c
  }

  /** The data of one of the bottles. */
  predicate IsDataOf(s: Store, dataId: nat, bottles: set<nat>) {
    exists b :: b in bottles && IsBottle(s, b) && DataId(s, b) == dataId
  }

  /** All names of the bottles of a generation. */
  function UniqueDigests(s: Store, gen: set<nat>): set<Digest> {
    set r | r in s.digests && IsDataOf(s, r.dataId, gen) :: r.digest
  }

  datatype Direction = Ancestors | Descendants

  function Finder(s: Store, direction: Direction, digests: set<Digest>): set<nat> {
    match direction
    case Ancestors => FindParents(s, digests)
    case Descendants => FindChildren(s, digests)
  }

  // ---------- the relation behind them ----------

  /** Bottle c lists bottle p as a source, under any of p's names. */
  predicate IsSource(s: Store, c: nat, p: nat) {
    IsBottle(s, c) && IsBottle(s, p) && exists d :: d in SourceDigests(s, c) && Named(s, DataId(s, p), d)
  }

  predicate SomeSource(s: Store, bottles: set<nat>, p: nat) {
    exists c :: c in bottles && IsSource(s, c, p)
  }

  predicate HasSource(s: Store, c: nat, bottles: set<nat>) {
    exists p :: p in bottles && IsSource(s, c, p)
  }

  /** One step from a set of bottles. */
  function Next(s: Store, direction: Direction, bottles: set<nat>): set<nat> {
    match direction
    case Ancestors => set p: nat | 0 <= p < |s.tables[Bottle]| && SomeSource(s, bottles, p)
    case Descendants => set c: nat | 0 <= c < |s.tables[Bottle]| && HasSource(s, c, bottles)
  }

  /** The bottles at exactly k steps. */
  function Relatives(s: Store, direction: Direction, start: nat, k: nat): set<nat> {
    if k == 0 then {start} else Next(s, direction, Relatives(s, direction, start, k - 1))
  }

  // ---------- the queries follow the relation ----------

  lemma NamesAreUnique(w: World, s: Store, i: nat, j: nat, d: Digest)
    requires Valid(w, s) && Named(s, i, d) && Named(s, j, d)
    ensures i == j
  {
    assert ValidDigests(w, s.data, s.digests);
    var m :| 0 <= m < |s.digests| && s.digests[m] == DigestRow(i, d);
    var n :| 0 <= n < |s.digests| && s.digests[n] == DigestRow(j, d);
    assert m < n || n < m || m == n;
  }

  lemma DataIsUnique(w: World, s: Store, b: nat, bottles: set<nat>)
    requires Valid(w, s) && IsBottle(s, b)
    ensures IsDataOf(s, DataId(s, b), bottles) <==> b in bottles
  {
    assert ValidRows(w, s, Bottle);
  }

  /** The data that the digests name are the data of these bottles. */
  ghost predicate Identify(s: Store, digests: set<Digest>, bottles: set<nat>) {
    forall id :: NamedBy(s, id, digests) <==> IsDataOf(s, id, bottles)
  }

  lemma ParentsAreNext(w: World, s: Store, digests: set<Digest>, bottles: set<nat>, p: nat)
    requires Valid(w, s) && Identify(s, digests, bottles) && IsBottle(s, p)
    ensures NamedBy(s, DataId(s, p), ParentDigests(s, digests)) <==> SomeSource(s, bottles, p)
  {
    if d :| d in ParentDigests(s, digests) && Named(s, DataId(s, p), d) {
      var c: nat :| 0 <= c < |s.tables[Bottle]| && NamedBy(s, DataId(s, c), digests) && d in SourceDigests(s, c);
      DataIsUnique(w, s, c, bottles);
      assert IsSource(s, c, p);
    }
    if c :| c in bottles && IsSource(s, c, p) {
      DataIsUnique(w, s, c, bottles);
    }
  }

  lemma ChildrenAreNext(w: World, s: Store, digests: set<Digest>, bottles: set<nat>, c: nat)
    requires Valid(w, s) && Identify(s, digests, bottles) && IsBottle(s, c)
    ensures (exists d :: d in SourceDigests(s, c) && d in ChildDigests(s, digests)) <==> HasSource(s, c, bottles)
  {
    if d :| d in SourceDigests(s, c) && d in ChildDigests(s, digests) {
      var r :| r in s.digests && NamedBy(s, r.dataId, digests) && r.digest == d;
      assert IsDataOf(s, r.dataId, bottles);
      var p :| p in bottles && IsBottle(s, p) && DataId(s, p) == r.dataId;
      assert r == DigestRow(DataId(s, p), d);
      assert IsSource(s, c, p);
    }
    if p :| p in bottles && IsSource(s, c, p) {
      var d :| d in SourceDigests(s, c) && Named(s, DataId(s, p), d);
      assert IsDataOf(s, DataId(s, p), bottles);
      assert DigestRow(DataId(s, p), d) in s.digests;
    }
  }

  lemma UniqueDigestsIdentify(w: World, s: Store, gen: set<nat>)
    requires Valid(w, s)
    ensures Identify(s, UniqueDigests(s, gen), gen)
  {
    forall id ensures NamedBy(s, id, UniqueDigests(s, gen)) <==> IsDataOf(s, id, gen) {
      if d :| d in UniqueDigests(s, gen) && Named(s, id, d) {
        var r :| r in s.digests && IsDataOf(s, r.dataId, gen) && r.digest == d;
        assert r == DigestRow(r.dataId, d);
        NamesAreUnique(w, s, id, r.dataId, d);
      }
      if b :| b in gen && IsBottle(s, b) && DataId(s, b) == id {
        HasName(w, s, b);
        var d :| Named(s, id, d);
        assert d in UniqueDigests(s, gen);
      }
    }
  }

  lemma HasName(w: World, s: Store, b: nat)
    requires Valid(w, s) && IsBottle(s, b)
    ensures exists d :: Named(s, DataId(s, b), d)
  {
    assert ValidRows(w, s, Bottle);
    assert ValidRow(w, s, Bottle, s.tables[Bottle][b]);
    var j :| 0 <= j < |s.digests| && s.digests[j].dataId == DataId(s, b);
    assert s.digests[j] == DigestRow(DataId(s, b), s.digests[j].digest);
    assert Named(s, DataId(s, b), s.digests[j].digest);
  }

  lemma OneNameIdentifies(w: World, s: Store, d: Digest, b: nat)
    requires Valid(w, s) && FindByDigest(s, Bottle, d) == Some(b)
    ensures Identify(s, {d}, {b})
  {
    var id := DataId(s, b);
    assert s.digests[IndexOfDigest(s.digests, d).value] == DigestRow(id, d);
    assert Named(s, id, d);
    forall id' ensures NamedBy(s, id', {d}) <==> IsDataOf(s, id', {b}) {
      if Named(s, id', d) {
        NamesAreUnique(w, s, id', id, d);
      }
      assert IsDataOf(s, id', {b}) <==> id' == id;
    }
  }

  lemma FinderIsNext(w: World, s: Store, direction: Direction, digests: set<Digest>, bottles: set<nat>)
    requires Valid(w, s) && Identify(s, digests, bottles)
    ensures Finder(s, direction, digests) == Next(s, direction, bottles)
  {
    forall b: nat | b < |s.tables[Bottle]|
      ensures NamedBy(s, DataId(s, b), ParentDigests(s, digests)) <==> SomeSource(s, bottles, b)
      ensures (exists d :: d in SourceDigests(s, b) && d in ChildDigests(s, digests)) <==> HasSource(s, b, bottles)
    {
      ParentsAreNext(w, s, digests, bottles, b);
      ChildrenAreNext(w, s, digests, bottles, b);
    }
  }

  // ---------- what the relation is, said of the submitted documents ----------

  /** The document submitted as bottle c lists the data under one of its names as a source. */
  ghost predicate ListsData(w: World, s: Store, c: nat, dataId: nat) {
    && c < |s.tables[Bottle]| && s.tables[Bottle][c].dataId < |s.data|
    && var document := w.parseBottle(s.data[s.tables[Bottle][c].dataId].raw);
    && document.Parsed?
    && exists source :: source in document.doc.sources && IsListedAs(s, source, dataId)
  }

  ghost predicate IsListedAs(s: Store, source: Source, dataId: nat) {
    source.bottle.Some? && DigestRow(dataId, source.bottle.value) in s.digests
  }

  /** The document submitted as bottle c lists bottle p as a source. */
  ghost predicate ListsBottle(w: World, s: Store, c: nat, p: nat) {
    p < |s.tables[Bottle]| && ListsData(w, s, c, s.tables[Bottle][p].dataId)
  }

  lemma ListedIff(w: World, s: Store, c: nat, dataId: nat)
    requires Valid(w, s) && c < |s.tables[Bottle]|
    ensures (exists d :: d in SourceDigests(s, c) && DigestRow(dataId, d) in s.digests) <==> ListsData(w, s, c, dataId)
  {
    assert ValidRows(w, s, Bottle) && ValidRow(w, s, Bottle, s.tables[Bottle][c]);
    if d :| d in SourceDigests(s, c) && DigestRow(dataId, d) in s.digests {
      var doc := s.tables[Bottle][c].detail.doc;
      var source :| source in doc.sources && source.bottle == Some(d);
      assert IsListedAs(s, source, dataId);
    }
  }

  lemma SourceIff(w: World, s: Store, c: nat, p: nat)
    requires Valid(w, s)
    ensures IsSource(s, c, p) <==> ListsBottle(w, s, c, p)
  {
    if IsBottle(s, c) && IsBottle(s, p) {
      ListedIff(w, s, c, s.tables[Bottle][p].dataId);
    }
  }

  /** The bottle is one step from the data: an ancestor of a bottle with it, or a descendant of it. */
  ghost predicate StepFromData(w: World, s: Store, direction: Direction, dataId: nat, b: nat) {
    match direction
    case Ancestors =>
      exists c: nat :: c < |s.tables[Bottle]| && s.tables[Bottle][c].dataId == dataId && ListsBottle(w, s, c, b)
    case Descendants => ListsData(w, s, b, dataId)
  }

  ghost predicate StepFrom(w: World, s: Store, direction: Direction, m: nat, b: nat) {
    match direction
    case Ancestors => ListsBottle(w, s, m, b)
    case Descendants => ListsBottle(w, s, b, m)
  }

  /** The first generation: what is one step from the data that the digest names. */
  ghost predicate IsFirst(w: World, s: Store, direction: Direction, d: Digest, gen: set<nat>) {
    forall b: nat ::
      b in gen <==> exists id :: DigestRow(id, d) in s.digests && StepFromData(w, s, direction, id, b)
  }

  /** A later generation: what is one step from some bottle of the one before. */
  ghost predicate Follows(w: World, s: Store, direction: Direction, gen: set<nat>, gen': set<nat>) {
    forall b: nat :: b in gen' <==> exists m: nat :: m in gen && StepFrom(w, s, direction, m, b)
  }

  lemma FinderFollows(w: World, s: Store, direction: Direction, gen: set<nat>)
    requires Valid(w, s)
    ensures Follows(w, s, direction, gen, Finder(s, direction, UniqueDigests(s, gen)))
  {
    UniqueDigestsIdentify(w, s, gen);
    FinderIsNext(w, s, direction, UniqueDigests(s, gen), gen);
    forall m: nat, b: nat
      ensures StepFrom(w, s, direction, m, b)
              <==> (match direction case Ancestors => IsSource(s, m, b) case Descendants => IsSource(s, b, m))
    {
      SourceIff(w, s, m, b);
      SourceIff(w, s, b, m);
    }
    forall b: nat
      ensures b in Next(s, direction, gen) <==> exists m: nat :: m in gen && StepFrom(w, s, direction, m, b)
    {
      NextIsStep(w, s, direction, gen, b);
    }
  }

  lemma NextIsStep(w: World, s: Store, direction: Direction, gen: set<nat>, b: nat)
    requires forall m: nat :: StepFrom(w, s, direction, m, b)
               <==> (match direction case Ancestors => IsSource(s, m, b) case Descendants => IsSource(s, b, m))
    ensures b in Next(s, direction, gen) <==> exists m: nat :: m in gen && StepFrom(w, s, direction, m, b)
  {
    match direction
    case Ancestors =>
      if m: nat :| m in gen && StepFrom(w, s, direction, m, b) {
        assert IsSource(s, m, b);
      }
      if SomeSource(s, gen, b) {
        var m :| m in gen && IsSource(s, m, b);
        assert StepFrom(w, s, direction, m, b);
      }
    case Descendants =>
      if m: nat :| m in gen && StepFrom(w, s, direction, m, b) {
        assert IsSource(s, b, m);
      }
      if HasSource(s, b, gen) {
        var m :| m in gen && IsSource(s, b, m);
        assert StepFrom(w, s, direction, m, b);
      }
  }

  lemma FinderIsFirst(w: World, s: Store, direction: Direction, d: Digest)
    requires Valid(w, s)
    ensures IsFirst(w, s, direction, d, Finder(s, direction, {d}))
  {
    forall b: nat
      ensures b in Finder(s, direction, {d})
              <==> exists id :: DigestRow(id, d) in s.digests && StepFromData(w, s, direction, id, b)
    {
      match direction
      case Ancestors => ParentIsFirst(w, s, d, b);
      case Descendants => ChildIsFirst(w, s, d, b);
    }
  }

  lemma ParentOfData(w: World, s: Store, d: Digest, b: nat) returns (id: nat)
    requires Valid(w, s) && b in FindParents(s, {d})
    ensures DigestRow(id, d) in s.digests && StepFromData(w, s, Ancestors, id, b)
  {
    var x :| x in ParentDigests(s, {d}) && Named(s, DataId(s, b), x);
    var c: nat :| 0 <= c < |s.tables[Bottle]| && NamedBy(s, DataId(s, c), {d}) && x in SourceDigests(s, c);
    ListedIff(w, s, c, DataId(s, b));
    assert ListsBottle(w, s, c, b);
    id := DataId(s, c);
  }

  lemma ParentIsFirst(w: World, s: Store, d: Digest, b: nat)
    requires Valid(w, s)
    ensures b in FindParents(s, {d})
            <==> exists id :: DigestRow(id, d) in s.digests && StepFromData(w, s, Ancestors, id, b)
  {
    if b in FindParents(s, {d}) {
      var _ := ParentOfData(w, s, d, b);
    }
    if id :| DigestRow(id, d) in s.digests && StepFromData(w, s, Ancestors, id, b) {
      var c: nat :| c < |s.tables[Bottle]| && s.tables[Bottle][c].dataId == id && ListsBottle(w, s, c, b);
      ListedIff(w, s, c, DataId(s, b));
      var x :| x in SourceDigests(s, c) && DigestRow(DataId(s, b), x) in s.digests;
      assert Named(s, DataId(s, c), d);
      assert x in ParentDigests(s, {d});
    }
  }

  lemma ChildIsFirst(w: World, s: Store, d: Digest, b: nat)
    requires Valid(w, s)
    ensures b in FindChildren(s, {d})
            <==> exists id :: DigestRow(id, d) in s.digests && StepFromData(w, s, Descendants, id, b)
  {
    if b in FindChildren(s, {d}) {
      var x :| x in SourceDigests(s, b) && x in ChildDigests(s, {d});
      var r :| r in s.digests && NamedBy(s, r.dataId, {d}) && r.digest == x;
      assert r == DigestRow(r.dataId, x) && Named(s, r.dataId, d);
      ListedIff(w, s, b, r.dataId);
      assert StepFromData(w, s, Descendants, r.dataId, b);
    }
    if id :| DigestRow(id, d) in s.digests && StepFromData(w, s, Descendants, id, b) {
      ListedIff(w, s, b, id);
      var x :| x in SourceDigests(s, b) && DigestRow(id, x) in s.digests;
      assert Named(s, id, d);
      assert x in ChildDigests(s, {d});
    }
  }

  /** The generations found, and the digests that the next query starts from. */
  ghost predicate Chained(w: World, s: Store, direction: Direction, d: Digest, generations: seq<set<nat>>,
                          digests: set<Digest>) {
    && (generations == [] ==> digests == {d})
    && (generations != [] ==> IsFirst(w, s, direction, d, generations[0])
                              && digests == UniqueDigests(s, generations[|generations| - 1]))
    && forall k | 0 <= k < |generations| - 1 :: Follows(w, s, direction, generations[k], generations[k + 1])
  }

  lemma OneMoreLink(w: World, s: Store, direction: Direction, d: Digest, generations: seq<set<nat>>,
                    digests: set<Digest>, gen: set<nat>)
    requires Valid(w, s) && Chained(w, s, direction, d, generations, digests) && gen == Finder(s, direction, digests)
    ensures Chained(w, s, direction, d, generations + [gen], UniqueDigests(s, gen))
  {
    if generations == [] {
      FinderIsFirst(w, s, direction, d);
    } else {
      FinderFollows(w, s, direction, generations[|generations| - 1]);
    }
  }

  // ---------- generations ----------

  /** The digests identify the bottles at i steps from the start, if the start is a bottle. */
  ghost predicate AtGeneration(s: Store, direction: Direction, start: Option<nat>, digests: set<Digest>, i: nat) {
    start.Some? ==> Identify(s, digests, Relatives(s, direction, start.value, i))
  }

  lemma NextGeneration(w: World, s: Store, direction: Direction, start: Option<nat>, digests: set<Digest>, i: nat)
    requires Valid(w, s) && AtGeneration(s, direction, start, digests, i)
    ensures var gen := Finder(s, direction, digests);
            && (start.Some? ==> gen == Relatives(s, direction, start.value, i + 1))
            && AtGeneration(s, direction, start, UniqueDigests(s, gen), i + 1)
  {
    if start.Some? {
      FinderIsNext(w, s, direction, digests, Relatives(s, direction, start.value, i));
      UniqueDigestsIdentify(w, s, Finder(s, direction, digests));
    }
  }

  /** These are the generations at one, two, ... steps from the start, if it is a bottle. */
  ghost predicate AreGenerations(s: Store, direction: Direction, start: Option<nat>, generations: seq<set<nat>>) {
    start.Some? ==> forall k | 0 <= k < |generations| :: generations[k] == Relatives(s, direction, start.value, k + 1)
  }

  /** The generations found so far are right, and the digests identify the last of them. */
  ghost predicate Found(s: Store, direction: Direction, start: Option<nat>, generations: seq<set<nat>>,
                        digests: set<Digest>) {
    && AtGeneration(s, direction, start, digests, |generations|)
    && AreGenerations(s, direction, start, generations)
  }

  lemma NothingFound(w: World, s: Store, direction: Direction, d: Digest)
    requires Valid(w, s)
    ensures Found(s, direction, FindByDigest(s, Bottle, d), [], {d})
  {
    var start := FindByDigest(s, Bottle, d);
    if start.Some? {
      OneNameIdentifies(w, s, d, start.value);
    }
  }

  lemma OneMoreGeneration(s: Store, direction: Direction, start: Option<nat>, generations: seq<set<nat>>, gen: set<nat>)
    requires AreGenerations(s, direction, start, generations)
    requires start.Some? ==> gen == Relatives(s, direction, start.value, |generations| + 1)
    ensures AreGenerations(s, direction, start, generations + [gen])
  {
  }

  lemma OneMoreFound(w: World, s: Store, direction: Direction, start: Option<nat>, generations: seq<set<nat>>,
                     digests: set<Digest>, gen: set<nat>, names: set<Digest>)
    requires Valid(w, s) && Found(s, direction, start, generations, digests)
    requires gen == Finder(s, direction, digests) && names == UniqueDigests(s, gen)
    ensures Found(s, direction, start, generations + [gen], names)
  {
    NextGeneration(w, s, direction, start, digests, |generations|);
    OneMoreGeneration(s, direction, start, generations, gen);
  }

  /**
   Finds generation after generation, each from the names of the one before. The first is one step from the
   data that the digest names, each other one step from the one before, as the submitted documents list their
   sources. Whichever of its names the query starts from, generation k holds exactly the bottles at k + 1
   steps.
  */
  method FindGenerations(w: World, s: Store, bottleDigest: Digest, depth: nat, direction: Direction)
    returns (generations: seq<set<nat>>)
    requires Valid(w, s)
    ensures |generations| == depth
    ensures depth > 0 ==> IsFirst(w, s, direction, bottleDigest, generations[0])
    ensures forall k | 0 <= k < depth - 1 :: Follows(w, s, direction, generations[k], generations[k + 1])
    ensures forall start: nat, k | FindByDigest(s, Bottle, bottleDigest) == Some(start) && 0 <= k < depth ::
              generations[k] == Relatives(s, direction, start, k + 1)
  {
    generations := [];
    var digests := {bottleDigest};
    ghost var start := FindByDigest(s, Bottle, bottleDigest);
    NothingFound(w, s, direction, bottleDigest);
    for i := 0 to depth
      invariant |generations| == i && Found(s, direction, start, generations, digests)
      invariant Chained(w, s, direction, bottleDigest, generations, digests)
    {
      var gen := Finder(s, direction, digests);
      OneMoreLink(w, s, direction, bottleDigest, generations, digests, gen);
      var names := UniqueDigests(s, gen);
      OneMoreFound(w, s, direction, start, generations, digests, gen, names);
      generations, digests := generations + [gen], names;
    }
  }

  // ---------- duality ----------

  /** Some child of b has a as its descendant at k steps. */
  ghost predicate ThroughChild(s: Store, b: nat, a: nat, k: nat) {
    exists c :: IsSource(s, c, b) && a in Relatives(s, Descendants, c, k)
  }

  /** One step more. */
  lemma StepOn(s: Store, b: nat, a: nat, k: nat)
    requires IsBottle(s, a)
    ensures a in Relatives(s, Ancestors, b, k + 1) <==> SomeSource(s, Relatives(s, Ancestors, b, k), a)
    ensures a in Relatives(s, Descendants, b, k + 1) <==> HasSource(s, a, Relatives(s, Descendants, b, k))
  {
  }

  /** If the descendants at k + 1 steps may be reached through a child, so may those one step further. */
  lemma FrontStep(s: Store, b: nat, a: nat, k: nat)
    requires IsBottle(s, a)
    requires forall m | IsBottle(s, m) :: m in Relatives(s, Descendants, b, k + 1) <==> ThroughChild(s, b, m, k)
    ensures HasSource(s, a, Relatives(s, Descendants, b, k + 1)) <==> ThroughChild(s, b, a, k + 1)
  {
    if m :| m in Relatives(s, Descendants, b, k + 1) && IsSource(s, a, m) {
      var c :| IsSource(s, c, b) && m in Relatives(s, Descendants, c, k);
      StepOn(s, c, a, k);
      assert HasSource(s, a, Relatives(s, Descendants, c, k));
    }
    if c :| IsSource(s, c, b) && a in Relatives(s, Descendants, c, k + 1) {
      StepOn(s, c, a, k);
      var m :| m in Relatives(s, Descendants, c, k) && IsSource(s, a, m);
      assert ThroughChild(s, b, m, k);
    }
  }

  /** The first step of a chain of descendants may be taken last. */
  lemma {:induction false} DescendantsFromFront(s: Store, b: nat, a: nat, k: nat)
    requires IsBottle(s, a)
    ensures a in Relatives(s, Descendants, b, k + 1) <==> ThroughChild(s, b, a, k)
    decreases k
  {
    StepOn(s, b, a, k);
    if k == 0 {
      assert HasSource(s, a, {b}) <==> IsSource(s, a, b);
      assert IsSource(s, a, b) ==> ThroughChild(s, b, a, 0);
    } else {
      forall m | IsBottle(s, m)
        ensures m in Relatives(s, Descendants, b, k) <==> ThroughChild(s, b, m, k - 1)
      {
        DescendantsFromFront(s, b, m, k - 1);
      }
      FrontStep(s, b, a, k - 1);
    }
  }

  /** A set of bottles that have a as their descendant at k steps: one step up is one step more. */
  lemma DualStep(s: Store, up: set<nat>, a: nat, b: nat, k: nat)
    requires forall c | IsBottle(s, c) :: c in up <==> a in Relatives(s, Descendants, c, k)
    ensures SomeSource(s, up, b) <==> ThroughChild(s, b, a, k)
  {
    if c :| c in up && IsSource(s, c, b) {
      assert ThroughChild(s, b, a, k);
    }
    if c :| IsSource(s, c, b) && a in Relatives(s, Descendants, c, k) {
      assert SomeSource(s, up, b);
    }
  }

  lemma OneStepDual(s: Store, a: nat, b: nat, k: nat)
    requires IsBottle(s, a) && IsBottle(s, b)
    requires forall c | IsBottle(s, c) :: c in Relatives(s, Ancestors, a, k) <==> a in Relatives(s, Descendants, c, k)
    ensures b in Relatives(s, Ancestors, a, k + 1) <==> a in Relatives(s, Descendants, b, k + 1)
  {
    DescendantsFromFront(s, b, a, k);
    StepOn(s, a, b, k);
    DualStep(s, Relatives(s, Ancestors, a, k), a, b, k);
  }

  /** B is an ancestor of A at k steps exactly when A is a descendant of B at k steps. */
  lemma {:induction false} Duality(s: Store, a: nat, b: nat, k: nat)
    requires IsBottle(s, a) && IsBottle(s, b)
    ensures b in Relatives(s, Ancestors, a, k) <==> a in Relatives(s, Descendants, b, k)
    decreases k
  {
    if k > 0 {
      forall c | IsBottle(s, c)
        ensures c in Relatives(s, Ancestors, a, k - 1) <==> a in Relatives(s, Descendants, c, k - 1)
      {
        Duality(s, a, c, k - 1);
      }
      OneStepDual(s, a, b, k - 1);
    }
  }
}
