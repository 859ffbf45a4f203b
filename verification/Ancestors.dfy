/**
 Telling the sources of a generation of bottles apart: things that are no bottle, bottles the server does
 not know, and the ancestors it found.
*/
module Ancestors {
  import opened Types
  import opened Store
  import opened Invariant
  import opened Lineage

  /** A bottle of a generation with all its digests and its sources. */
  datatype BottleRelative = BottleRelative(id: nat, digests: seq<Digest>, sources: seq<Source>)

  type Generation = seq<BottleRelative>

  datatype ExtendedAncestors =
    ExtendedAncestors(nonBottles: seq<string>, unknownBottles: seq<Digest>, bottles: Generation)

  /** Where a source was found. */
  datatype Place = NonBottle(index: nat) | UnknownBottle(index: nat) | KnownBottle(index: nat)

  function AllSources(g: Generation): seq<Source> {
    if g == [] then [] else AllSources(g[..|g| - 1]) + g[|g| - 1].sources
  }

  predicate IsKnown(g: Generation, d: Digest) {
    exists i :: 0 <= i < |g| && d in g[i].digests
  }

  function NonBottleUris(sources: seq<Source>): seq<string> {
    if sources == [] then []
    else
      var last := sources[|sources| - 1];
      NonBottleUris(sources[..|sources| - 1]) + if last.bottle.None? then [last.uri] else []
  }

  function UnknownDigests(sources: seq<Source>, known: Generation): seq<Digest> {
    if sources == [] then []
    else
      var last := sources[|sources| - 1];
      UnknownDigests(sources[..|sources| - 1], known)
      + if last.bottle.Some? && !IsKnown(known, last.bottle.value) then [last.bottle.value] else []
  }

  lemma {:induction false} SourcesExact(g: Generation, source: Source)
    ensures source in AllSources(g) <==> exists r :: r in g && source in r.sources
  {
    if g != [] {
      var init, last := g[..|g| - 1], g[|g| - 1];
      SourcesExact(init, source);
      assert g == init + [last];
      assert forall r :: r in g <==> r in init || r == last;
    }
  }

  lemma {:induction false} UrisExact(sources: seq<Source>, uri: string)
    ensures uri in NonBottleUris(sources) <==> Source(uri, None) in sources
  {
    if sources != [] {
      UrisExact(sources[..|sources| - 1], uri);
      assert sources == sources[..|sources| - 1] + [sources[|sources| - 1]];
    }
  }

  lemma {:induction false} UnknownExact(sources: seq<Source>, known: Generation, d: Digest)
    ensures d in UnknownDigests(sources, known) <==>
              !IsKnown(known, d) && exists source :: source in sources && source.bottle == Some(d)
  {
    if sources != [] {
      var init, last := sources[..|sources| - 1], sources[|sources| - 1];
      UnknownExact(init, known, d);
      assert sources == init + [last];
      assert forall source :: source in sources <==> source in init || source == last;
    }
  }

  // ---------- the loops ----------

  method GetNonBottleParents(g: Generation) returns (nonBottles: seq<string>)
    ensures nonBottles == NonBottleUris(AllSources(g))
  {
    nonBottles := [];
    for i := 0 to |g|
      invariant nonBottles == NonBottleUris(AllSources(g[..i]))
    {
      var sources := g[i].sources;
      assert g[..i + 1][..i] == g[..i];
      assert AllSources(g[..i]) + sources[..0] == AllSources(g[..i]);
      for j := 0 to |sources|
        invariant nonBottles == NonBottleUris(AllSources(g[..i]) + sources[..j])
      {
        assert (AllSources(g[..i]) + sources[..j + 1])[..|AllSources(g[..i])| + j] == AllSources(g[..i]) + sources[..j];
        if sources[j].bottle.None? {
          nonBottles := nonBottles + [sources[j].uri];
        }
      }
      assert sources[..|sources|] == sources;
    }
    assert g[..|g|] == g;
  }

  /** The set of all digests of a generation, for fast lookup. */
  method GetDigestSet(g: Generation) returns (digestSet: set<Digest>)
    ensures forall d :: d in digestSet <==> IsKnown(g, d)
  {
    digestSet := {};
    for i := 0 to |g|
      invariant forall d :: d in digestSet <==> exists j :: 0 <= j < i && d in g[j].digests
    {
      digestSet := digestSet + set d | d in g[i].digests;
    }
  }

  method GetUnknownBottleParents(g: Generation, knownParents: Generation) returns (unknownBottles: seq<Digest>)
    ensures unknownBottles == UnknownDigests(AllSources(g), knownParents)
  {
    var knownDigestSet := GetDigestSet(knownParents);
    unknownBottles := [];
    for i := 0 to |g|
      invariant unknownBottles == UnknownDigests(AllSources(g[..i]), knownParents)
    {
      var sources := g[i].sources;
      assert g[..i + 1][..i] == g[..i];
      assert AllSources(g[..i]) + sources[..0] == AllSources(g[..i]);
      for j := 0 to |sources|
        invariant unknownBottles == UnknownDigests(AllSources(g[..i]) + sources[..j], knownParents)
      {
        assert (AllSources(g[..i]) + sources[..j + 1])[..|AllSources(g[..i])| + j] == AllSources(g[..i]) + sources[..j];
        if sources[j].bottle.Some? && sources[j].bottle.value !in knownDigestSet {
          unknownBottles := unknownBottles + [sources[j].bottle.value];
        }
      }
      assert sources[..|sources|] == sources;
    }
    assert g[..|g|] == g;
  }

  method NewExtendedAncestors(ancestors: Generation, current: Generation) returns (g: ExtendedAncestors)
    ensures g == Extended(ancestors, current)
  {
    var nonBottles := GetNonBottleParents(current);
    var unknownBottles := GetUnknownBottleParents(current, ancestors);
    g := ExtendedAncestors(nonBottles, unknownBottles, ancestors);
  }

  function Extended(ancestors: Generation, current: Generation): ExtendedAncestors {
    ExtendedAncestors(NonBottleUris(AllSources(current)), UnknownDigests(AllSources(current), ancestors), ancestors)
  }

  /** The source is matched at this place. */
  predicate MatchedAt(g: ExtendedAncestors, source: Source, place: Place) {
    match place
    case NonBottle(i) => source.bottle.None? && i < |g.nonBottles| && g.nonBottles[i] == source.uri
    case UnknownBottle(i) => source.bottle.Some? && i < |g.unknownBottles| && g.unknownBottles[i] == source.bottle.value
    case KnownBottle(i) => source.bottle.Some? && i < |g.bottles| && source.bottle.value in g.bottles[i].digests
  }

  /** Searches the lists in turn and tells the first place that matches. */
  method FindRelative(g: ExtendedAncestors, source: Source) returns (place: Option<Place>)
    ensures place.Some? ==> MatchedAt(g, source, place.value)
    ensures place.Some? ==> forall p | MatchedAt(g, source, p) ::
              (place.value.KnownBottle? ==> p.KnownBottle?) && (p.NonBottle? <==> place.value.NonBottle?)
              && ((p.KnownBottle? <==> place.value.KnownBottle?) ==> place.value.index <= p.index)
    ensures place.None? ==> forall p :: !MatchedAt(g, source, p)
  {
    if source.bottle.None? {
      for i := 0 to |g.nonBottles|
        invariant forall j :: 0 <= j < i ==> g.nonBottles[j] != source.uri
      {
        if g.nonBottles[i] == source.uri {
          return Some(NonBottle(i));
        }
      }
    } else {
      for i := 0 to |g.unknownBottles|
        invariant forall j :: 0 <= j < i ==> g.unknownBottles[j] != source.bottle.value
      {
        if g.unknownBottles[i] == source.bottle.value {
          return Some(UnknownBottle(i));
        }
      }
      for i := 0 to |g.bottles|
        invariant forall j :: 0 <= j < i ==> source.bottle.value !in g.bottles[j].digests
      {
        if source.bottle.value in g.bottles[i].digests {
          return Some(KnownBottle(i));
        }
      }
    }
    place := None;
  }

  // ---------- total and exclusive ----------

  /** Every source of the current generation is matched, and all places where it is matched are of one class. */
  lemma Classified(ancestors: Generation, current: Generation, source: Source, r: nat)
    requires r < |current| && source in current[r].sources
    ensures var g := Extended(ancestors, current);
            && (exists p :: MatchedAt(g, source, p))
            && (forall p | MatchedAt(g, source, p) ::
                  && (p.NonBottle? <==> source.bottle.None?)
                  && (p.KnownBottle? <==> source.bottle.Some? && IsKnown(ancestors, source.bottle.value))
                  && (p.UnknownBottle? <==> source.bottle.Some? && !IsKnown(ancestors, source.bottle.value)))
  {
    var g, sources := Extended(ancestors, current), AllSources(current);
    SourcesExact(current, source);
    assert current[r] in current;
    if source.bottle.None? {
      UrisExact(sources, source.uri);
      var i :| 0 <= i < |g.nonBottles| && g.nonBottles[i] == source.uri;
      assert MatchedAt(g, source, NonBottle(i));
    } else {
      var d := source.bottle.value;
      UnknownExact(sources, ancestors, d);
      if IsKnown(ancestors, d) {
        var i :| 0 <= i < |ancestors| && d in ancestors[i].digests;
        assert MatchedAt(g, source, KnownBottle(i));
      } else {
        var i :| 0 <= i < |g.unknownBottles| && g.unknownBottles[i] == d;
        assert MatchedAt(g, source, UnknownBottle(i));
      }
    }
  }

  // ---------- what the server does not know ----------

  /** The generation lists these bottles, each with all its names and its sources. */
  ghost predicate Lists(s: Store, g: Generation, bottles: set<nat>) {
    && (forall r | r in g :: r.id in bottles && IsBottle(s, r.id))
    && (forall b | b in bottles :: exists i :: 0 <= i < |g| && g[i].id == b)
    && (forall r | r in g :: forall d :: d in r.digests <==> Named(s, DataId(s, r.id), d))
    && (forall r | r in g ::
         s.tables[Bottle][r.id].detail.BottleDetail? && r.sources == s.tables[Bottle][r.id].detail.doc.sources)
  }

  lemma NamedIffFound(w: World, s: Store, b: nat, d: Digest)
    requires Valid(w, s) && IsBottle(s, b)
    ensures Named(s, DataId(s, b), d) <==> FindByDigest(s, Bottle, d) == Some(b)
  {
    assert ValidRows(w, s, Bottle);
    if Named(s, DataId(s, b), d) {
      var i :| 0 <= i < |s.digests| && s.digests[i] == DigestRow(DataId(s, b), d);
      assert IndexOfDigest(s.digests, d) == Some(i);
    }
    if FindByDigest(s, Bottle, d) == Some(b) {
      var i := IndexOfDigest(s.digests, d).value;
      assert s.digests[i] == DigestRow(DataId(s, b), d);
    }
  }

  lemma FoundParent(s: Store, bottles: set<nat>, c: nat, p: nat, d: Digest)
    requires Identify(s, UniqueDigests(s, bottles), bottles) && c in bottles && IsBottle(s, c) && IsBottle(s, p)
    requires d in SourceDigests(s, c) && Named(s, DataId(s, p), d)
    ensures p in FindParents(s, UniqueDigests(s, bottles))
  {
    assert IsDataOf(s, DataId(s, c), bottles);
    assert d in ParentDigests(s, UniqueDigests(s, bottles));
  }

  lemma KnownIffListed(s: Store, g: Generation, bottles: set<nat>, d: Digest)
    requires Lists(s, g, bottles)
    ensures IsKnown(g, d) <==> exists p :: p in bottles && IsBottle(s, p) && Named(s, DataId(s, p), d)
  {
    if IsKnown(g, d) {
      var i :| 0 <= i < |g| && d in g[i].digests;
      assert g[i] in g;
      assert Named(s, DataId(s, g[i].id), d);
    }
    if p :| p in bottles && IsBottle(s, p) && Named(s, DataId(s, p), d) {
      var i :| 0 <= i < |g| && g[i].id == p;
      assert g[i] in g;
    }
  }

  lemma ListedSource(s: Store, g: Generation, bottles: set<nat>, r: nat, source: Source)
    requires Lists(s, g, bottles) && r < |g| && source in g[r].sources && source.bottle.Some?
    ensures g[r].id in bottles && IsBottle(s, g[r].id) && source.bottle.value in SourceDigests(s, g[r].id)
  {
    assert g[r] in g;
  }

  /**
   When the ancestors are the parents the server finds for the current bottles, a source counts as known
   exactly when some bottle in the store goes by its digest.
  */
  lemma UnknownMeansAbsent(w: World, s: Store, current: Generation, ancestors: Generation, bottles: set<nat>, r: nat,
                           source: Source)
    requires Valid(w, s) && Lists(s, current, bottles)
    requires Lists(s, ancestors, FindParents(s, UniqueDigests(s, bottles)))
    requires r < |current| && source in current[r].sources && source.bottle.Some?
    ensures IsKnown(ancestors, source.bottle.value) <==> FindByDigest(s, Bottle, source.bottle.value).Some?
  {
    var parents, d := FindParents(s, UniqueDigests(s, bottles)), source.bottle.value;
    ListedSource(s, current, bottles, r, source);
    KnownIffListed(s, ancestors, parents, d);
    if IsKnown(ancestors, d) {
      var p :| p in parents && IsBottle(s, p) && Named(s, DataId(s, p), d);
      NamedIffFound(w, s, p, d);
    }
    if FindByDigest(s, Bottle, d).Some? {
      var p := FindByDigest(s, Bottle, d).value;
      NamedIffFound(w, s, p, d);
      UniqueDigestsIdentify(w, s, bottles);
      FoundParent(s, bottles, current[r].id, p, d);
    }
  }
}
