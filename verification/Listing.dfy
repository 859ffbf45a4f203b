/**
 Listing a table page by page: the list request, and what a client that follows the time of the last
 record it saw gets out of a table that may grow meanwhile.
*/
module Listing {
  import opened Types
  import opened Store
  import opened Invariant
  import opened Catalog

  datatype Entry = Entry(createdAt: Time, digests: seq<Digest>, data: Bytes)

  // ---------- the list request ----------

  /** All names of a data row. */
  function AliasesOf(digests: seq<DigestRow>, dataId: nat): seq<Digest> {
    if digests == [] then []
    else
      var last := digests[|digests| - 1];
      AliasesOf(digests[..|digests| - 1], dataId) + if last.dataId == dataId then [last.digest] else []
  }

  /** Later times go last, and a row with an equal time goes after the rows before it. */
  function InsertByTime(entries: seq<Entry>, e: Entry): seq<Entry> {
    if entries == [] then [e]
    else
      var last := entries[|entries| - 1];
      if e.createdAt < last.createdAt then InsertByTime(entries[..|entries| - 1], e) + [last] else entries + [e]
  }

  /** The rows of a table that have a name, joined with their data and names, ordered by creation. */
  function Entries(s: Store, rows: seq<Row>): seq<Entry> {
    if rows == [] then []
    else
      var before, last := Entries(s, rows[..|rows| - 1]), rows[|rows| - 1];
      var names := AliasesOf(s.digests, last.dataId);
      if names == [] then before
      else InsertByTime(before, Entry(last.createdAt, names, Raw(s.data, last.dataId)))
  }

  function After(entries: seq<Entry>, since: Time): seq<Entry> {
    if entries == [] then []
    else
      var last := entries[|entries| - 1];
      After(entries[..|entries| - 1], since) + if last.createdAt > since then [last] else []
  }

  /** A negative limit is no limit. */
  function Limited(entries: seq<Entry>, limit: int): seq<Entry> {
    if 0 <= limit <= |entries| then entries[..limit] else entries
  }

  function List(s: Store, kind: Kind, since: Time, limit: int): seq<Entry> {
    Limited(After(Entries(s, s.tables[kind]), since), limit)
  }

  // ---------- what a listing holds ----------

  ghost predicate Sorted(entries: seq<Entry>) {
    forall i, j | 0 <= i < j < |entries| :: entries[i].createdAt <= entries[j].createdAt
  }

  ghost predicate StrictlySorted(entries: seq<Entry>) {
    forall i, j | 0 <= i < j < |entries| :: entries[i].createdAt < entries[j].createdAt
  }

  /** No two rows of a table were created at the same instant. */
  ghost predicate DistinctTimes(rows: seq<Row>) {
    forall i, j | 0 <= i < j < |rows| :: rows[i].createdAt != rows[j].createdAt
  }

  lemma {:induction false} AliasesOfExact(digests: seq<DigestRow>, dataId: nat)
    ensures forall d :: d in AliasesOf(digests, dataId) <==> DigestRow(dataId, d) in digests
  {
    if digests != [] {
      var init, last := digests[..|digests| - 1], digests[|digests| - 1];
      AliasesOfExact(init, dataId);
      assert digests == init + [last];
    }
  }

  lemma AppendSorted(entries: seq<Entry>, last: Entry)
    requires forall x | x in entries :: x.createdAt <= last.createdAt
    ensures Sorted(entries) ==> Sorted(entries + [last])
    ensures StrictlySorted(entries) && (forall x | x in entries :: x.createdAt < last.createdAt) ==>
              StrictlySorted(entries + [last])
  {
    var all := entries + [last];
    assert forall i | 0 <= i < |entries| :: all[i] in entries;
  }

  lemma {:induction false} InsertMembers(entries: seq<Entry>, e: Entry)
    ensures forall x :: x in InsertByTime(entries, e) <==> x in entries || x == e
  {
    if entries != [] {
      var init, last := entries[..|entries| - 1], entries[|entries| - 1];
      assert entries == init + [last];
      InsertMembers(init, e);
    }
  }

  lemma {:induction false} InsertSorted(entries: seq<Entry>, e: Entry)
    requires Sorted(entries)
    ensures Sorted(InsertByTime(entries, e))
    ensures StrictlySorted(entries) && (forall x | x in entries :: x.createdAt != e.createdAt) ==>
              StrictlySorted(InsertByTime(entries, e))
  {
    if entries != [] {
      var init, last := entries[..|entries| - 1], entries[|entries| - 1];
      assert forall x | x in entries :: x.createdAt <= last.createdAt;
      if e.createdAt < last.createdAt {
        InsertSorted(init, e);
        InsertMembers(init, e);
        assert forall x | x in init :: x in entries;
        assert forall x | x in init :: StrictlySorted(entries) ==> x.createdAt < last.createdAt;
        AppendSorted(InsertByTime(init, e), last);
      } else {
        AppendSorted(entries, e);
      }
    }
  }

  /** The entry of a row. */
  function EntryOf(s: Store, row: Row): Entry {
    Entry(row.createdAt, AliasesOf(s.digests, row.dataId), Raw(s.data, row.dataId))
  }

  /** Some row of the table has this entry. */
  ghost predicate HasEntry(s: Store, rows: seq<Row>, e: Entry) {
    exists i :: 0 <= i < |rows| && e == EntryOf(s, rows[i])
  }

  lemma {:induction false} EntriesExact(s: Store, rows: seq<Row>)
    ensures forall e :: e in Entries(s, rows) <==> e.digests != [] && HasEntry(s, rows, e)
  {
    if rows != [] {
      var init, last := rows[..|rows| - 1], rows[|rows| - 1];
      EntriesExact(s, init);
      InsertMembers(Entries(s, init), EntryOf(s, last));
      forall e ensures HasEntry(s, rows, e) <==> HasEntry(s, init, e) || e == EntryOf(s, last) {
        if HasEntry(s, init, e) {
          var i :| 0 <= i < |init| && e == EntryOf(s, init[i]);
          assert rows[i] == init[i];
        }
        assert rows[|rows| - 1] == last;
      }
    }
  }

  lemma {:induction false} EntriesSorted(s: Store, rows: seq<Row>)
    ensures Sorted(Entries(s, rows))
    ensures DistinctTimes(rows) ==> StrictlySorted(Entries(s, rows))
  {
    if rows != [] {
      var init, last := rows[..|rows| - 1], rows[|rows| - 1];
      EntriesSorted(s, init);
      EntriesExact(s, init);
      forall e | e in Entries(s, init) && DistinctTimes(rows) ensures e.createdAt != last.createdAt {
        var i :| 0 <= i < |init| && e == EntryOf(s, init[i]);
        assert rows[i] == init[i];
      }
      InsertSorted(Entries(s, init), EntryOf(s, last));
    }
  }

  lemma {:induction false} AfterMembers(entries: seq<Entry>, since: Time)
    ensures forall e :: e in After(entries, since) <==> e in entries && e.createdAt > since
  {
    if entries != [] {
      var init, last := entries[..|entries| - 1], entries[|entries| - 1];
      AfterMembers(init, since);
      assert entries == init + [last];
    }
  }

  lemma {:induction false} AfterSorted(entries: seq<Entry>, since: Time)
    requires Sorted(entries)
    ensures Sorted(After(entries, since))
    ensures StrictlySorted(entries) ==> StrictlySorted(After(entries, since))
  {
    if entries != [] {
      var init, last := entries[..|entries| - 1], entries[|entries| - 1];
      AfterSorted(init, since);
      AfterMembers(init, since);
      assert forall x | x in init ::
               x.createdAt <= last.createdAt && (StrictlySorted(entries) ==> x.createdAt < last.createdAt);
      AppendSorted(After(init, since), last);
    }
  }

  // ---------- following the last time seen ----------

  function Last(entries: seq<Entry>, since: Time): Time {
    if entries == [] then since else entries[|entries| - 1].createdAt
  }

  /**
   The records that successive list requests return when the n-th request meets the server in
   `states[n]`. The second component says whether a short page ended the run; if the states run out
   first, the next request fails.
  */
  function Pages(states: seq<Store>, kind: Kind, since: Time, limit: int): (seq<Entry>, bool)
    decreases |states|
  {
    if states == [] then ([], false)
    else
      var page := List(states[0], kind, since, limit);
      if |page| < limit then (page, true)
      else
        var (rest, ended) := Pages(states[1..], kind, Last(page, since), limit);
        (page + rest, ended)
  }

  lemma PagesStep(states: seq<Store>, kind: Kind, since: Time, limit: int)
    requires states != []
    ensures var page := List(states[0], kind, since, limit);
            var rest := Pages(states[1..], kind, Last(page, since), limit);
            Pages(states, kind, since, limit) == if |page| < limit then (page, true) else (page + rest.0, rest.1)
  {
  }

  lemma LastOfBoth(got: seq<Entry>, page: seq<Entry>, start: Time)
    ensures Last(got + page, start) == Last(page, Last(got, start))
  {
  }

  ghost predicate AllDistinct(states: seq<Store>, kind: Kind) {
    forall i | 0 <= i < |states| :: DistinctTimes(states[i].tables[kind])
  }

  lemma ListMembers(s: Store, kind: Kind, since: Time, limit: int)
    ensures forall e | e in List(s, kind, since, limit) :: e.createdAt > since && e in Entries(s, s.tables[kind])
  {
    var all := Entries(s, s.tables[kind]);
    AfterMembers(all, since);
    assert forall e | e in Limited(After(all, since), limit) :: e in After(all, since);
  }

  lemma PageIsSorted(s: Store, kind: Kind, since: Time, limit: int)
    requires DistinctTimes(s.tables[kind])
    ensures StrictlySorted(List(s, kind, since, limit))
  {
    EntriesSorted(s, s.tables[kind]);
    AfterSorted(Entries(s, s.tables[kind]), since);
  }

  /**
   What one list request answers, said of the tables: with a negative limit the records of all rows that have a
   name and are newer, in the order of creation; otherwise as many of those from the front as the limit allows.
  */
  lemma ListExact(s: Store, kind: Kind, since: Time, limit: int)
    ensures forall e :: e in List(s, kind, since, -1) <==>
              exists i :: 0 <= i < |s.tables[kind]| && IsRecordOf(s, s.tables[kind][i], e) && e.createdAt > since
    ensures Sorted(List(s, kind, since, -1))
    ensures limit < 0 ==> List(s, kind, since, limit) == List(s, kind, since, -1)
    ensures limit >= 0 ==>
              && List(s, kind, since, limit) <= List(s, kind, since, -1)
              && (|List(s, kind, since, limit)| == limit || List(s, kind, since, limit) == List(s, kind, since, -1))
              && |List(s, kind, since, limit)| <= limit
  {
    var rows, all := s.tables[kind], Entries(s, s.tables[kind]);
    EntriesExact(s, rows);
    EntriesSorted(s, rows);
    AfterMembers(all, since);
    AfterSorted(all, since);
    forall i: nat, e | i < |rows|
      ensures IsRecordOf(s, rows[i], e) ==> e.digests != [] && e.createdAt == rows[i].createdAt
      ensures e.digests != [] && e == EntryOf(s, rows[i]) ==> IsRecordOf(s, rows[i], e)
    {
      AliasesOfExact(s.digests, rows[i].dataId);
    }
  }

  /** A record has the time of its row, the bytes of its data, and its names in the order of their rows. */
  ghost predicate IsRecordOf(s: Store, row: Row, e: Entry) {
    && e.createdAt == row.createdAt && e.digests == AliasesOf(s.digests, row.dataId) && e.digests != []
    && e.data == if row.dataId < |s.data| then s.data[row.dataId].raw else []
  }

  /** The names are those of the alias rows of the data, each once if the aliases are unique, in their order. */
  lemma {:induction false} AliasesInOrder(digests: seq<DigestRow>, dataId: nat, i: nat, j: nat)
    requires i < j < |AliasesOf(digests, dataId)|
    ensures exists m, n :: 0 <= m < n < |digests| && digests[m] == DigestRow(dataId, AliasesOf(digests, dataId)[i])
                           && digests[n] == DigestRow(dataId, AliasesOf(digests, dataId)[j])
  {
    var init, last := digests[..|digests| - 1], digests[|digests| - 1];
    assert digests == init + [last];
    var names := AliasesOf(init, dataId);
    if j < |names| {
      AliasesInOrder(init, dataId, i, j);
      var m, n :| 0 <= m < n < |init| && init[m] == DigestRow(dataId, names[i])
                  && init[n] == DigestRow(dataId, names[j]);
      assert digests[m] == init[m] && digests[n] == init[n];
    } else {
      AliasesOfExact(init, dataId);
      assert names[i] in names;
      var m :| 0 <= m < |init| && init[m] == DigestRow(dataId, names[i]);
      assert digests[m] == init[m] && digests[|digests| - 1] == last;
    }
  }

  /** An entry that a page leaves out comes later than the page, and the page is full. */
  lemma LeftOut(s: Store, kind: Kind, since: Time, limit: int, e: Entry)
    requires DistinctTimes(s.tables[kind])
    requires e in Entries(s, s.tables[kind]) && e.createdAt > since
    requires e !in List(s, kind, since, limit)
    ensures |List(s, kind, since, limit)| >= limit && e.createdAt > Last(List(s, kind, since, limit), since)
  {
    var all := Entries(s, s.tables[kind]);
    EntriesSorted(s, s.tables[kind]);
    AfterSorted(all, since);
    AfterMembers(all, since);
    var newer := After(all, since);
    var i :| 0 <= i < |newer| && newer[i] == e;
  }

  /** One page followed by later ones. */
  lemma JoinPages(page: seq<Entry>, rest: seq<Entry>, since: Time)
    requires StrictlySorted(page) && StrictlySorted(rest)
    requires forall e | e in page :: e.createdAt > since
    requires forall e | e in rest :: Last(page, since) < e.createdAt <= Last(rest, Last(page, since))
    ensures StrictlySorted(page + rest)
    ensures forall e | e in page + rest :: since < e.createdAt <= Last(page + rest, since)
  {
    var all := page + rest;
    assert forall i | 0 <= i < |page| :: all[i] in page && all[i].createdAt <= Last(page, since);
    assert forall i | |page| <= i < |all| :: all[i] in rest;
    assert Last(all, since) == Last(rest, Last(page, since));
  }

  /** What is returned is in order, newer than the start, and was in the table when it was listed. */
  lemma {:induction false} PagesSound(states: seq<Store>, kind: Kind, since: Time, limit: int)
    requires AllDistinct(states, kind)
    ensures StrictlySorted(Pages(states, kind, since, limit).0)
    ensures forall e | e in Pages(states, kind, since, limit).0 ::
              since < e.createdAt <= Last(Pages(states, kind, since, limit).0, since)
    decreases |states|
  {
    if states != [] {
      var page := List(states[0], kind, since, limit);
      PageIsSorted(states[0], kind, since, limit);
      ListMembers(states[0], kind, since, limit);
      if |page| < limit {
        JoinPages(page, [], since);
        assert page + [] == page;
      } else {
        PagesSound(states[1..], kind, Last(page, since), limit);
        JoinPages(page, Pages(states[1..], kind, Last(page, since), limit).0, since);
      }
    }
  }

  lemma {:induction false} PagesListed(states: seq<Store>, kind: Kind, since: Time, limit: int)
    ensures forall e | e in Pages(states, kind, since, limit).0 :: ListedIn(states, kind, e)
    decreases |states|
  {
    if states != [] {
      var page := List(states[0], kind, since, limit);
      ListMembers(states[0], kind, since, limit);
      if |page| >= limit {
        PagesListed(states[1..], kind, Last(page, since), limit);
        forall e | ListedIn(states[1..], kind, e) ensures ListedIn(states, kind, e) {
          var i :| 0 <= i < |states[1..]| && e in Entries(states[1..][i], states[1..][i].tables[kind]);
          assert states[i + 1] == states[1..][i];
        }
      }
    }
  }

  ghost predicate ListedIn(states: seq<Store>, kind: Kind, e: Entry) {
    exists i :: 0 <= i < |states| && e in Entries(states[i], states[i].tables[kind])
  }

  /** The same record with at least these names. */
  ghost predicate Covers(g: Entry, e: Entry) {
    g.createdAt == e.createdAt && g.data == e.data && forall d | d in e.digests :: d in g.digests
  }

  lemma AliasesGrow(digests: seq<DigestRow>, digests': seq<DigestRow>, dataId: nat)
    requires digests <= digests'
    ensures forall d | d in AliasesOf(digests, dataId) :: d in AliasesOf(digests', dataId)
    ensures HasAlias(digests, dataId) ==> AliasesOf(digests', dataId) != []
  {
    AliasesOfExact(digests, dataId);
    AliasesOfExact(digests', dataId);
    if HasAlias(digests, dataId) {
      var j :| 0 <= j < |digests| && digests[j].dataId == dataId;
      assert DigestRow(dataId, digests'[j].digest) in digests';
    }
  }

  lemma RowIsListed(s: Store, rows: seq<Row>, i: nat)
    requires i < |rows| && AliasesOf(s.digests, rows[i].dataId) != []
    ensures EntryOf(s, rows[i]) in Entries(s, rows)
  {
    EntriesExact(s, rows);
    assert HasEntry(s, rows, EntryOf(s, rows[i]));
  }

  lemma EntryGrows(w: World, s: Store, s': Store, kind: Kind, i: nat)
    requires Valid(w, s) && Grows(s, s') && i < |s.tables[kind]|
    ensures i < |s'.tables[kind]|
    ensures EntryOf(s', s'.tables[kind][i]) in Entries(s', s'.tables[kind])
    ensures Covers(EntryOf(s', s'.tables[kind][i]), EntryOf(s, s.tables[kind][i]))
  {
    assert ValidRows(w, s, kind) && GrowsRows(s.tables[kind], s'.tables[kind]);
    var row := s.tables[kind][i];
    assert ValidRow(w, s, kind, row);
    RowGrows(s, s', row, s'.tables[kind], i);
  }

  lemma RowGrows(s: Store, s': Store, row: Row, rows': seq<Row>, i: nat)
    requires s.data <= s'.data && s.digests <= s'.digests && HasAlias(s.digests, row.dataId) && row.dataId < |s.data|
    requires i < |rows'| && rows'[i] == row.(version := rows'[i].version)
    ensures EntryOf(s', rows'[i]) in Entries(s', rows') && Covers(EntryOf(s', rows'[i]), EntryOf(s, row))
  {
    AliasesGrow(s.digests, s'.digests, row.dataId);
    RowIsListed(s', rows', i);
  }

  ghost predicate Covered(entries: seq<Entry>, e: Entry) {
    exists g :: g in entries && Covers(g, e)
  }

  lemma CoveredJoin(page: seq<Entry>, rest: seq<Entry>, e: Entry)
    requires Covered(page, e) || Covered(rest, e)
    ensures Covered(page + rest, e)
  {
    if Covered(page, e) {
      var g :| g in page && Covers(g, e);
      assert g in page + rest;
    } else {
      var g :| g in rest && Covers(g, e);
      assert g in page + rest;
    }
  }

  /** What one list request leaves out is later than its page, and there is more to come. */
  lemma CoverStep(s: Store, kind: Kind, since: Time, limit: int, e: Entry)
    requires DistinctTimes(s.tables[kind]) && e.createdAt > since && Covered(Entries(s, s.tables[kind]), e)
    ensures var page := List(s, kind, since, limit);
            Covered(page, e) || (|page| >= limit && e.createdAt > Last(page, since))
  {
    var g :| g in Entries(s, s.tables[kind]) && Covers(g, e);
    if g !in List(s, kind, since, limit) {
      LeftOut(s, kind, since, limit, g);
    }
  }

  /** The record is in the table at every request. */
  ghost predicate AlwaysThere(states: seq<Store>, kind: Kind, e: Entry) {
    forall n | 0 <= n < |states| :: Covered(Entries(states[n], states[n].tables[kind]), e)
  }

  lemma StaysThere(states: seq<Store>, kind: Kind, e: Entry)
    requires states != [] && AlwaysThere(states, kind, e) && AllDistinct(states, kind)
    ensures AlwaysThere(states[1..], kind, e) && AllDistinct(states[1..], kind)
    ensures Covered(Entries(states[0], states[0].tables[kind]), e) && DistinctTimes(states[0].tables[kind])
  {
  }

  /** A record that is in the table at every request is not skipped, whatever is inserted meanwhile. */
  lemma {:induction false} PagesCover(states: seq<Store>, kind: Kind, since: Time, limit: int, e: Entry)
    requires AllDistinct(states, kind) && AlwaysThere(states, kind, e) && e.createdAt > since
    requires Pages(states, kind, since, limit).1 || e.createdAt <= Last(Pages(states, kind, since, limit).0, since)
    ensures Covered(Pages(states, kind, since, limit).0, e)
    decreases |states|
  {
    if states != [] {
      var page := List(states[0], kind, since, limit);
      var (rest, _) := Pages(states[1..], kind, Last(page, since), limit);
      PagesStep(states, kind, since, limit);
      StaysThere(states, kind, e);
      CoverStep(states[0], kind, since, limit, e);
      if !Covered(page, e) {
        LastOfBoth(page, rest, since);
        PagesCover(states[1..], kind, Last(page, since), limit, e);
      }
      if |page| >= limit {
        CoveredJoin(page, rest, e);
      }
    }
  }

  /**
   Nothing that was in the table when the run began is skipped, up to the last time it reached, and up
   to the end if the run ended.
  */
  lemma PagesComplete(w: World, s0: Store, states: seq<Store>, kind: Kind, since: Time, limit: int, i: nat)
    requires AllDistinct(states, kind) && Valid(w, s0)
    requires forall n | 0 <= n < |states| :: Grows(s0, states[n])
    requires i < |s0.tables[kind]| && s0.tables[kind][i].createdAt > since
    requires Pages(states, kind, since, limit).1
             || s0.tables[kind][i].createdAt <= Last(Pages(states, kind, since, limit).0, since)
    ensures Covered(Pages(states, kind, since, limit).0, EntryOf(s0, s0.tables[kind][i]))
  {
    var e := EntryOf(s0, s0.tables[kind][i]);
    forall n | 0 <= n < |states| ensures Covered(Entries(states[n], states[n].tables[kind]), e) {
      EntryGrows(w, s0, states[n], kind, i);
    }
    assert AlwaysThere(states, kind, e);
    PagesCover(states, kind, since, limit, e);
  }

  lemma {:induction false} PagesNewer(states: seq<Store>, kind: Kind, since: Time, limit: int)
    ensures forall e | e in Pages(states, kind, since, limit).0 :: e.createdAt > since
    decreases |states|
  {
    if states != [] {
      var page := List(states[0], kind, since, limit);
      ListMembers(states[0], kind, since, limit);
      assert page != [] ==> page[|page| - 1] in page;
      PagesNewer(states[1..], kind, Last(page, since), limit);
    }
  }

  // ---------- a quiescent table ----------

  /** No page of a listing ends between two records of the same instant. */
  predicate NoTieAtPageEnd(entries: seq<Entry>, limit: int)
    requires limit >= 1
    decreases |entries|
  {
    |entries| > limit ==>
      entries[limit - 1].createdAt < entries[limit].createdAt && NoTieAtPageEnd(entries[limit..], limit)
  }

  lemma {:induction false} AfterAfter(entries: seq<Entry>, since: Time, time: Time)
    requires since <= time
    ensures After(After(entries, since), time) == After(entries, time)
  {
    if entries != [] {
      var init, last := entries[..|entries| - 1], entries[|entries| - 1];
      AfterAfter(init, since, time);
      if last.createdAt > since {
        var newer := After(init, since) + [last];
        assert newer[..|newer| - 1] == After(init, since);
      } else {
        assert After(entries, since) == After(init, since);
        assert After(entries, time) == After(init, time);
      }
    }
  }

  lemma {:induction false} AfterShorter(entries: seq<Entry>, time: Time)
    ensures |After(entries, time)| <= |entries|
    ensures (forall e | e in entries :: e.createdAt <= time) ==> After(entries, time) == []
  {
    if entries != [] {
      AfterShorter(entries[..|entries| - 1], time);
    }
  }

  /** What follows the k-th record of a sorted listing is the rest of it, less the records tied with it. */
  lemma {:induction false} AfterCut(entries: seq<Entry>, k: nat)
    requires Sorted(entries) && 0 < k <= |entries|
    ensures k == |entries| || entries[k - 1].createdAt < entries[k].createdAt ==>
              After(entries, entries[k - 1].createdAt) == entries[k..]
    ensures k < |entries| && entries[k - 1].createdAt == entries[k].createdAt ==>
              |After(entries, entries[k - 1].createdAt)| < |entries| - k
  {
    var init, last := entries[..|entries| - 1], entries[|entries| - 1];
    AfterShorter(entries, entries[k - 1].createdAt);
    if k < |entries| {
      AfterCut(init, k);
      if last.createdAt > entries[k - 1].createdAt {
        assert entries[k..] == init[k..] + [last];
      } else {
        assert forall e | e in entries :: e.createdAt <= entries[k - 1].createdAt;
      }
    }
  }

  /** Every request meets the same store. */
  ghost predicate Unchanging(states: seq<Store>, s: Store) {
    forall n | 0 <= n < |states| :: states[n] == s
  }

  /** A run over an unchanging table got exactly what is newer, unless a page ended inside a tie. */
  ghost predicate GotAllBut(pages: (seq<Entry>, bool), newer: seq<Entry>, limit: int) {
    && (pages.1 <==> limit >= 1)
    && (limit >= 1 ==> |pages.0| <= |newer| && (pages.0 == newer <==> NoTieAtPageEnd(newer, limit)))
  }

  lemma OnePageMore(all: seq<Entry>, since: Time, limit: int, rest: (seq<Entry>, bool))
    requires Sorted(all) && 1 <= limit <= |After(all, since)|
    requires var newer := After(all, since); GotAllBut(rest, After(all, newer[limit - 1].createdAt), limit)
    ensures var newer := After(all, since); GotAllBut((newer[..limit] + rest.0, rest.1), newer, limit)
  {
    var newer := After(all, since);
    NextPage(all, newer, since, limit);
    PrefixCancels(newer, limit, rest.0);
  }

  /** The pages of a listing that does not change, for up to n requests. */
  function QuietRun(all: seq<Entry>, since: Time, limit: int, n: nat): (seq<Entry>, bool)
    decreases n
  {
    if n == 0 then ([], false)
    else
      var page := Limited(After(all, since), limit);
      if |page| < limit then (page, true)
      else
        var (rest, ended) := QuietRun(all, Last(page, since), limit, n - 1);
        (page + rest, ended)
  }

  lemma {:induction false} PagesAreQuiet(s: Store, states: seq<Store>, kind: Kind, since: Time, limit: int)
    requires Unchanging(states, s)
    ensures Pages(states, kind, since, limit) == QuietRun(Entries(s, s.tables[kind]), since, limit, |states|)
    decreases |states|
  {
    if states != [] {
      var page := List(states[0], kind, since, limit);
      PagesStep(states, kind, since, limit);
      StaysUnchanged(states, s);
      PagesAreQuiet(s, states[1..], kind, Last(page, since), limit);
    }
  }

  lemma StaysUnchanged(states: seq<Store>, s: Store)
    requires states != [] && Unchanging(states, s)
    ensures states[0] == s && Unchanging(states[1..], s)
  {
  }

  lemma QuietRunStep(all: seq<Entry>, since: Time, limit: int, n: nat)
    requires n > 0 && limit >= 1
    ensures var newer := After(all, since);
            |newer| >= limit ==>
              var rest := QuietRun(all, newer[limit - 1].createdAt, limit, n - 1);
              QuietRun(all, since, limit, n) == (newer[..limit] + rest.0, rest.1)
    ensures var newer := After(all, since); |newer| < limit ==> QuietRun(all, since, limit, n) == (newer, true)
  {
  }

  lemma {:induction false} QuietRunGets(all: seq<Entry>, since: Time, limit: int, n: nat)
    requires Sorted(all) && limit >= 1 && n > |After(all, since)|
    ensures GotAllBut(QuietRun(all, since, limit, n), After(all, since), limit)
    decreases n
  {
    var newer := After(all, since);
    QuietRunStep(all, since, limit, n);
    if |newer| >= limit {
      var time := newer[limit - 1].createdAt;
      NextPage(all, newer, since, limit);
      QuietRunGets(all, time, limit, n - 1);
      OnePageMore(all, since, limit, QuietRun(all, time, limit, n - 1));
    }
  }

  /**
   On a table that does not change, a run with enough requests ends exactly when the batch size is
   positive, and then misses nothing exactly when no page ends inside a tie.
  */
  lemma QuiescentPages(s: Store, states: seq<Store>, kind: Kind, since: Time, limit: int)
    requires Unchanging(states, s) && |states| > |After(Entries(s, s.tables[kind]), since)|
    ensures GotAllBut(Pages(states, kind, since, limit), After(Entries(s, s.tables[kind]), since), limit)
  {
    if limit <= 0 {
      NeverEnds(states, kind, since, limit);
    } else {
      EntriesSorted(s, s.tables[kind]);
      PagesAreQuiet(s, states, kind, since, limit);
      QuietRunGets(Entries(s, s.tables[kind]), since, limit, |states|);
    }
  }

  lemma NextPage(all: seq<Entry>, newer: seq<Entry>, since: Time, limit: nat)
    requires Sorted(all) && newer == After(all, since) && 1 <= limit <= |newer|
    ensures var next := After(all, newer[limit - 1].createdAt);
            && |next| <= |newer| - limit
            && (limit == |newer| || newer[limit - 1].createdAt < newer[limit].createdAt ==> next == newer[limit..])
            && (limit < |newer| && newer[limit - 1].createdAt >= newer[limit].createdAt ==> |next| < |newer| - limit)
  {
    AfterSorted(all, since);
    AfterMembers(all, since);
    var time := newer[limit - 1].createdAt;
    assert newer[limit - 1] in newer;
    AfterAfter(all, since, time);
    AfterCut(newer, limit);
  }

  lemma PrefixCancels(entries: seq<Entry>, k: nat, rest: seq<Entry>)
    requires k <= |entries|
    ensures entries[..k] + rest == entries <==> rest == entries[k..]
  {
    assert entries == entries[..k] + entries[k..];
    if entries[..k] + rest == entries {
      assert (entries[..k] + rest)[k..] == rest;
    }
  }

  lemma {:induction false} NeverEnds(states: seq<Store>, kind: Kind, since: Time, limit: int)
    requires limit <= 0
    ensures !Pages(states, kind, since, limit).1
    decreases |states|
  {
    if states != [] {
      NeverEnds(states[1..], kind, Last(List(states[0], kind, since, limit), since), limit);
    }
  }

  lemma {:induction false} DistinctHasNoTies(entries: seq<Entry>, limit: int)
    requires StrictlySorted(entries) && limit >= 1
    ensures NoTieAtPageEnd(entries, limit)
    decreases |entries|
  {
    if |entries| > limit {
      DistinctHasNoTies(entries[limit..], limit);
    }
  }
}
