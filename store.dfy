/** The ArchivesSpace tables the import queries and writes, held in memory,
    and the three queries over them: `find_series`,
    `find_children_by_parent_id` and `parsed_resources`. */
module Store {
  import opened Options
  import opened Sequences
  import opened Identifiers
  import opened Records

  /** The `archival_object` and `resource` tables. A table scan visits ids
      in the order of `objectOrder` / `resourceOrder`; `nextId` is the id
      the next created archival object receives; `rejects` holds the
      archival objects whose `update_from_json` the store refuses. */
  datatype Store = Store(
    objects: map<nat, ArchivalObject>,
    objectOrder: seq<nat>,
    resources: map<nat, Resource>,
    resourceOrder: seq<nat>,
    nextId: nat,
    rejects: set<nat>)
  {
    ghost predicate Valid()
    {
      && Distinct(objectOrder)
      && (forall id :: id in objects <==> id in objectOrder)
      && Distinct(resourceOrder)
      && (forall id :: id in resources <==> id in resourceOrder)
      && (forall id | id in objects :: id < nextId)
      && (forall id | id in objects :: objects[id].parent != Some(id))
    }

    /** `ArchivalObject.create_from_json`: a new top-level archival object
        under the resource the payload refers to (`rootId`), with the next
        id. */
    function CreateSeries(p: SeriesPayload, rootId: nat, repoId: nat): (r: (Store, nat))
      requires Valid()
      ensures r.0.Valid() && r.1 == nextId && r.1 !in objects
      ensures r.0 == this.(objects := objects[nextId := NewSeries(p, rootId, repoId)],
                           objectOrder := objectOrder + [nextId],
                           nextId := nextId + 1)
    {
      assert nextId !in objectOrder;
      (this.(objects := objects[nextId := NewSeries(p, rootId, repoId)],
             objectOrder := objectOrder + [nextId],
             nextId := nextId + 1),
       nextId)
    }
  }

  /** The archival object `create_from_json` makes of a series payload: no
      parent, no instances yet. */
  function NewSeries(p: SeriesPayload, rootId: nat, repoId: nat): ArchivalObject
  {
    ArchivalObject(None, rootId, repoId, Some(p.componentId), p.level, Some(p.title), [])
  }

  // ---------------------------------------------------------------------
  // find_series

  /** A row of the `where(parent_id: nil, repo_id:, root_record_id:)` scan
      whose component id has a first digit run equal, as text, to the
      series label. */
  predicate IsSeriesFor(o: ArchivalObject, repo: nat, resourceId: nat, series: string)
  {
    && o.parent.None? && o.repo == repo && o.root == resourceId
    && o.componentId.Some? && FirstDigitRun(o.componentId.value) == Some(series)
  }

  function SeriesLookupIn(objects: map<nat, ArchivalObject>, ids: seq<nat>,
                          repo: nat, resourceId: nat, series: string): Option<nat>
    requires forall i | 0 <= i < |ids| :: ids[i] in objects
  {
    if ids == [] then None
    else if IsSeriesFor(objects[ids[0]], repo, resourceId, series) then Some(ids[0])
    else SeriesLookupIn(objects, ids[1..], repo, resourceId, series)
  }

  /** What `find_series(repo_id, resource_id, series)` returns. */
  function SeriesLookup(st: Store, repo: nat, resourceId: nat, series: string): Option<nat>
    requires st.Valid()
  {
    SeriesLookupIn(st.objects, st.objectOrder, repo, resourceId, series)
  }

  /** `find_series`: scan the top-level archival objects of the resource and
      stop at the first whose component id carries the series number. */
  method FindSeries(st: Store, repo: nat, resourceId: nat, series: string)
    returns (seriesId: Option<nat>)
    requires st.Valid()
    ensures seriesId == SeriesLookup(st, repo, resourceId, series)
  {
    seriesId := None;
    var i := 0;
    while i < |st.objectOrder|
      invariant 0 <= i <= |st.objectOrder|
      invariant SeriesLookupIn(st.objects, st.objectOrder[i..], repo, resourceId, series)
             == SeriesLookup(st, repo, resourceId, series)
    {
      var ao := st.objects[st.objectOrder[i]];
      if ao.componentId.Some? {
        var id := FirstDigitRun(ao.componentId.value);
        if ao.parent.None? && ao.repo == repo && ao.root == resourceId && id == Some(series) {
          seriesId := Some(st.objectOrder[i]);
          return;
        }
      }
      assert st.objectOrder[i..][1..] == st.objectOrder[i + 1..];
      i := i + 1;
    }
  }

  /** The lookup yields the first id, in scan order, of a matching object. */
  lemma {:induction false} SeriesLookupFirst(objects: map<nat, ArchivalObject>, ids: seq<nat>,
                                            repo: nat, resourceId: nat, series: string, i: nat)
    requires forall k | 0 <= k < |ids| :: ids[k] in objects
    requires i < |ids| && IsSeriesFor(objects[ids[i]], repo, resourceId, series)
    requires forall k | 0 <= k < i :: !IsSeriesFor(objects[ids[k]], repo, resourceId, series)
    ensures SeriesLookupIn(objects, ids, repo, resourceId, series) == Some(ids[i])
  {
    if i > 0 {
      SeriesLookupFirst(objects, ids[1..], repo, resourceId, series, i - 1);
    }
  }

  /** The lookup fails exactly when no object of the scan matches. */
  lemma {:induction false} SeriesLookupNone(objects: map<nat, ArchivalObject>, ids: seq<nat>,
                                           repo: nat, resourceId: nat, series: string)
    requires forall k | 0 <= k < |ids| :: ids[k] in objects
    ensures SeriesLookupIn(objects, ids, repo, resourceId, series).None?
        <==> forall k | 0 <= k < |ids| :: !IsSeriesFor(objects[ids[k]], repo, resourceId, series)
  {
    if ids != [] {
      SeriesLookupNone(objects, ids[1..], repo, resourceId, series);
      assert forall k | 1 <= k < |ids| :: ids[k] == ids[1..][k - 1];
    }
  }

  /** A found id is a matching top-level object of the store. */
  lemma {:induction false} SeriesLookupFound(objects: map<nat, ArchivalObject>, ids: seq<nat>,
                                            repo: nat, resourceId: nat, series: string)
    requires forall k | 0 <= k < |ids| :: ids[k] in objects
    ensures var r := SeriesLookupIn(objects, ids, repo, resourceId, series);
      r.Some? ==> r.value in ids && IsSeriesFor(objects[r.value], repo, resourceId, series)
  {
    if ids != [] {
      SeriesLookupFound(objects, ids[1..], repo, resourceId, series);
    }
  }

  /** The digit run of "04." keeps its leading zero. */
  lemma PaddedDigitPrefix()
    ensures DigitPrefix("04.") == "04"
  {
    assert "04."[2] == '.';
    assert "04."[1..] == "4.";
    assert "4."[1..] == ".";
  }

  /** The first digit run of "Series 04." is "04". */
  lemma PaddedSeriesRun()
    ensures FirstDigitRun("Series 04.") == Some("04")
  {
    var cid := "Series 04.";
    assert NoDigits(cid[..7]);
    assert IsDigit(cid[7]);
    FirstDigitRunIsLeftmost(cid, 7);
    assert cid[7..] == "04.";
    PaddedDigitPrefix();
  }

  /** The series label is compared with the digit run as text: a label "4"
      does not find "Series 04.", the label "04" does. */
  lemma SeriesLabelIsText(o: ArchivalObject, repo: nat, resourceId: nat)
    requires o.parent.None? && o.repo == repo && o.root == resourceId
    requires o.componentId == Some("Series 04.")
    ensures !IsSeriesFor(o, repo, resourceId, "4")
    ensures IsSeriesFor(o, repo, resourceId, "04")
  {
    PaddedSeriesRun();
  }

  /** A component id without digits, or without a value, never matches. */
  lemma SeriesNeedsDigits(o: ArchivalObject, repo: nat, resourceId: nat, series: string)
    requires o.componentId.None? || NoDigits(o.componentId.value)
    ensures !IsSeriesFor(o, repo, resourceId, series)
  {
  }

  // ---------------------------------------------------------------------
  // find_children_by_parent_id

  predicate IsChildOf(o: ArchivalObject, parent: nat, repo: nat, resourceId: nat)
  {
    o.parent == Some(parent) && o.repo == repo && o.root == resourceId
  }

  /** The ids a `where(parent_id:, repo_id:, root_record_id:)` scan of `ids`
      selects, in scan order. */
  function ChildIdsIn(objects: map<nat, ArchivalObject>, ids: seq<nat>,
                      parent: nat, repo: nat, resourceId: nat): (r: seq<nat>)
    requires forall k | 0 <= k < |ids| :: ids[k] in objects
    ensures forall k | 0 <= k < |r| :: r[k] in ids && IsChildOf(objects[r[k]], parent, repo, resourceId)
    ensures forall k | 0 <= k < |ids| :: IsChildOf(objects[ids[k]], parent, repo, resourceId) ==> ids[k] in r
    ensures Distinct(ids) ==> Distinct(r)
    ensures KeepsOrder(r, ids)
  {
    if ids == [] then []
    else
      var rest := ChildIdsIn(objects, ids[1..], parent, repo, resourceId);
      assert forall k | 1 <= k < |ids| :: ids[k] == ids[1..][k - 1];
      KeepsOrderCons(ids, rest, IsChildOf(objects[ids[0]], parent, repo, resourceId));
      if IsChildOf(objects[ids[0]], parent, repo, resourceId) then [ids[0]] + rest else rest
  }

  /** `find_children_by_parent_id(parent_id, repo_id, resource_id)`. */
  function FindChildren(st: Store, parent: nat, repo: nat, resourceId: nat): (r: seq<nat>)
    requires st.Valid()
    ensures Distinct(r)
    ensures forall k | 0 <= k < |r| :: r[k] in st.objects && r[k] != parent
    ensures forall id | id in st.objects :: IsChildOf(st.objects[id], parent, repo, resourceId) <==> id in r
    ensures KeepsOrder(r, st.objectOrder)
  {
    ChildIdsIn(st.objects, st.objectOrder, parent, repo, resourceId)
  }

  // ---------------------------------------------------------------------
  // parsed_resources

  /** A resource's id and repository, as the index stores them. */
  datatype ResourceRef = ResourceRef(id: nat, repoId: nat)

  /** `Array#join` of the parsed identifier JSON; a null part joins as "". */
  function JoinParts(parts: seq<Option<string>>): (r: string)
    ensures r == "" <==> forall k | 0 <= k < |parts| :: parts[k].None? || parts[k].value == ""
    ensures |parts| == 1 ==> r == match parts[0] case Some(p) => p case None => ""
  {
    if parts == [] then ""
    else
      var init := parts[..|parts| - 1];
      assert forall k | 0 <= k < |parts| - 1 :: parts[k] == init[k];
      var last := match parts[|parts| - 1] case Some(p) => p case None => "";
      JoinParts(init) + last
  }

  /** Joining is concatenation: the parts of a split identifier join to the
      two halves joined one after the other. */
  lemma {:induction false} JoinPartsAppend(a: seq<Option<string>>, b: seq<Option<string>>)
    ensures JoinParts(a + b) == JoinParts(a) + JoinParts(b)
    decreases |b|
  {
    if b != [] {
      var b' := b[..|b| - 1];
      var last := match b[|b| - 1] case Some(p) => p case None => "";
      assert (a + b)[..|a + b| - 1] == a + b';
      assert (a + b)[|a + b| - 1] == b[|b| - 1];
      JoinPartsAppend(a, b');
      assert JoinParts(a + b) == JoinParts(a) + JoinParts(b') + last;
    } else {
      assert a + b == a;
    }
  }

  /** The normalised key of a resource. */
  function ResourceKey(r: Resource): string
  {
    ParseIdentifier(JoinParts(r.identifier))
  }

  /** The index after scanning the resources `ids` in order. */
  function IndexOf(resources: map<nat, Resource>, ids: seq<nat>): map<string, ResourceRef>
    requires forall k | 0 <= k < |ids| :: ids[k] in resources
  {
    if ids == [] then map[]
    else
      var id := ids[|ids| - 1];
      IndexOf(resources, ids[..|ids| - 1])[ResourceKey(resources[id]) := ResourceRef(id, resources[id].repo)]
  }

  /** `parsed_resources`: one scan of the resource table, each resource
      stored under its normalised key. */
  method ParsedResources(st: Store) returns (index: map<string, ResourceRef>)
    requires st.Valid()
    ensures index == IndexOf(st.resources, st.resourceOrder)
  {
    index := map[];
    for i := 0 to |st.resourceOrder|
      invariant index == IndexOf(st.resources, st.resourceOrder[..i])
    {
      var id := st.resourceOrder[i];
      var resource := st.resources[id];
      var parsed := ParseIdentifier(JoinParts(resource.identifier));
      assert st.resourceOrder[..i + 1][..i] == st.resourceOrder[..i];
      index := index[parsed := ResourceRef(id, resource.repo)];
    }
    assert st.resourceOrder[..|st.resourceOrder|] == st.resourceOrder;
  }

  /** Every key of the index is the normalised identifier of a scanned
      resource. */
  lemma {:induction false} IndexKeyScanned(resources: map<nat, Resource>, ids: seq<nat>, key: string)
    requires forall k | 0 <= k < |ids| :: ids[k] in resources
    requires key in IndexOf(resources, ids)
    ensures exists i | 0 <= i < |ids| :: ResourceKey(resources[ids[i]]) == key
  {
    var n := |ids| - 1;
    if ResourceKey(resources[ids[n]]) != key {
      IndexKeyScanned(resources, ids[..n], key);
      var i :| 0 <= i < n && ResourceKey(resources[ids[..n][i]]) == key;
      assert ids[i] == ids[..n][i];
    }
  }

  /** Of the resources sharing a key, the last one scanned is indexed. */
  lemma {:induction false} IndexLastWins(resources: map<nat, Resource>, ids: seq<nat>, i: nat)
    requires forall k | 0 <= k < |ids| :: ids[k] in resources
    requires i < |ids|
    requires forall j | i < j < |ids| :: ResourceKey(resources[ids[j]]) != ResourceKey(resources[ids[i]])
    ensures ResourceKey(resources[ids[i]]) in IndexOf(resources, ids)
    ensures IndexOf(resources, ids)[ResourceKey(resources[ids[i]])] == ResourceRef(ids[i], resources[ids[i]].repo)
  {
    var n := |ids| - 1;
    if i < n {
      IndexLastWins(resources, ids[..n], i);
      IndexCovers(resources, ids[..n], i);
    }
  }

  /** Every scanned resource's key is in the index. */
  lemma {:induction false} IndexCovers(resources: map<nat, Resource>, ids: seq<nat>, i: nat)
    requires forall k | 0 <= k < |ids| :: ids[k] in resources
    requires i < |ids|
    ensures ResourceKey(resources[ids[i]]) in IndexOf(resources, ids)
  {
    if i < |ids| - 1 {
      IndexCovers(resources, ids[..|ids| - 1], i);
    }
  }

  /** Every reference in the index names a scanned resource and its
      repository. */
  lemma {:induction false} IndexResolves(resources: map<nat, Resource>, ids: seq<nat>)
    requires forall k | 0 <= k < |ids| :: ids[k] in resources
    ensures forall key | key in IndexOf(resources, ids) ::
      var ref := IndexOf(resources, ids)[key];
      ref.id in ids && ref.repoId == resources[ref.id].repo
  {
    if ids != [] {
      IndexResolves(resources, ids[..|ids| - 1]);
    }
  }
}
