/** Pass 1 of the loaded hook (lines 97-180): every CSV row is classified
    against the resource index; a skipped row leaves a complaint, an
    accepted row joins the series group of its resource and series label,
    or, without a label, the resource group of its resource; the series of
    a group is looked up and its children fetched up front, and each
    resource is cached on first sight. */
module Grouping {
  import opened Options
  import opened Sequences
  import opened OrderedHash
  import opened Records
  import opened Store
  import opened Rows
  import opened Groups

  // ---------------------------------------------------------------------
  // Where each row goes

  /** The resource and label of a row accepted into a series group. */
  function SeriesOf(v: Verdict): Option<(nat, string)>
  {
    if v.Accept? && v.data.series.Some? then Some((v.target.id, v.data.series.value)) else None
  }

  /** The resource of a row accepted into a resource group. */
  function ResourceOf(v: Verdict): Option<nat>
  {
    if v.Accept? && v.data.series.None? then Some(v.target.id) else None
  }

  /** The complaints of lines 114-122: row numbers count from 1. */
  function SkipComplaints(rows: seq<Row>, index: map<string, ResourceRef>): seq<Complaint>
  {
    if rows == [] then []
    else
      var n := |rows|;
      SkipComplaints(rows[..n - 1], index)
        + match Classify(rows[n - 1], index)
          case Skip(reason) => [Skipped(n, reason)]
          case Accept(_, _) => []
  }

  /** The resource of every row accepted into a series group, in order. */
  function SeriesTargets(rows: seq<Row>, index: map<string, ResourceRef>): seq<nat>
  {
    if rows == [] then []
    else
      var init := SeriesTargets(rows[..|rows| - 1], index);
      match SeriesOf(Classify(rows[|rows| - 1], index))
      case Some((rid, _)) => init + [rid]
      case None => init
  }

  /** The series label of every row accepted for resource `rid`, in order. */
  function SeriesLabels(rows: seq<Row>, index: map<string, ResourceRef>, rid: nat): seq<string>
  {
    if rows == [] then []
    else
      var init := SeriesLabels(rows[..|rows| - 1], index, rid);
      match SeriesOf(Classify(rows[|rows| - 1], index))
      case Some((r, s)) => if r == rid then init + [s] else init
      case None => init
  }

  /** The cleaned rows of the series group (`rid`, `s`), in order. */
  function SeriesRows(rows: seq<Row>, index: map<string, ResourceRef>, rid: nat, s: string): seq<Row>
  {
    if rows == [] then []
    else
      var v := Classify(rows[|rows| - 1], index);
      var init := SeriesRows(rows[..|rows| - 1], index, rid, s);
      if SeriesOf(v) == Some((rid, s)) then init + [v.data] else init
  }

  /** The resource of every row accepted without a series, in order. */
  function ResourceTargets(rows: seq<Row>, index: map<string, ResourceRef>): seq<nat>
  {
    if rows == [] then []
    else
      var init := ResourceTargets(rows[..|rows| - 1], index);
      match ResourceOf(Classify(rows[|rows| - 1], index))
      case Some(rid) => init + [rid]
      case None => init
  }

  /** The cleaned rows of the resource group of `rid`, in order. */
  function ResourceRows(rows: seq<Row>, index: map<string, ResourceRef>, rid: nat): seq<Row>
  {
    if rows == [] then []
    else
      var v := Classify(rows[|rows| - 1], index);
      var init := ResourceRows(rows[..|rows| - 1], index, rid);
      if ResourceOf(v) == Some(rid) then init + [v.data] else init
  }

  /** The resources of all accepted rows: the keys of `resource_cache`. */
  function AcceptedTargets(rows: seq<Row>, index: map<string, ResourceRef>): set<nat>
  {
    if rows == [] then {}
    else
      var v := Classify(rows[|rows| - 1], index);
      AcceptedTargets(rows[..|rows| - 1], index) + if v.Accept? then {v.target.id} else {}
  }

  // ---------------------------------------------------------------------
  // The groups pass 1 builds

  /** The fetched `[record, json]` pairs of lines 150-156, one per child id. */
  function Fetched(st: Store, ids: seq<nat>): (r: seq<Child>)
    requires forall k | 0 <= k < |ids| :: ids[k] in st.objects
    ensures |r| == |ids|
    ensures forall k | 0 <= k < |ids| :: r[k] == Child(ids[k], st.objects[ids[k]])
  {
    seq(|ids|, k requires 0 <= k < |ids| => Child(ids[k], st.objects[ids[k]]))
  }

  /** The series group (`rid`, `s`) holding `data`: the store does not
      change during pass 1, so its series is what `find_series` finds and
      its children are the series' children as fetched. */
  function ExpectedGroup(st: Store, rid: nat, s: string, data: seq<Row>): SeriesGroup
    requires st.Valid() && rid in st.resources
  {
    var repo := st.resources[rid].repo;
    var id := SeriesLookup(st, repo, rid, s);
    SeriesGroup(id, repo, rid, st.resources[rid].uri, data, id.Some?,
                if id.Some? then Fetched(st, FindChildren(st, id.value, repo, rid)) else [])
  }

  /** `series_groups[rid]` after the rows `rows`: the labels of the
      resource's rows in order of first appearance, each with its group. */
  ghost predicate InnerGrouped(st: Store, index: map<string, ResourceRef>, rows: seq<Row>,
                               rid: nat, inner: OrderedMap<string, SeriesGroup>)
    requires st.Valid()
  {
    && rid in st.resources
    && inner.Valid()
    && inner.keys == Dedup(SeriesLabels(rows, index, rid))
    && forall s | s in inner.entries :: inner.entries[s] == ExpectedGroup(st, rid, s, SeriesRows(rows, index, rid, s))
  }

  /** `series_groups` after the rows `rows`. */
  ghost predicate SeriesGrouped(st: Store, index: map<string, ResourceRef>, rows: seq<Row>,
                                sg: OrderedMap<nat, OrderedMap<string, SeriesGroup>>)
    requires st.Valid()
  {
    && sg.Valid()
    && sg.keys == Dedup(SeriesTargets(rows, index))
    && forall rid | rid in sg.entries :: InnerGrouped(st, index, rows, rid, sg.entries[rid])
  }

  /** `resource_groups` after the rows `rows`. */
  ghost predicate ResourceGrouped(st: Store, index: map<string, ResourceRef>, rows: seq<Row>,
                                  rg: OrderedMap<nat, ResourceGroup>)
  {
    && rg.Valid()
    && rg.keys == Dedup(ResourceTargets(rows, index))
    && forall rid | rid in rg.entries ::
         && rid in st.resources
         && rg.entries[rid] == ResourceGroup(st.resources[rid].repo, ResourceRows(rows, index, rid))
  }

  /** `resource_cache` after the rows `rows`: each accepted row's resource
      as the store holds it. */
  ghost predicate Cached(st: Store, index: map<string, ResourceRef>, rows: seq<Row>, cache: map<nat, Resource>)
  {
    && cache.Keys == AcceptedTargets(rows, index)
    && forall rid | rid in cache :: rid in st.resources && cache[rid] == st.resources[rid]
  }

  /** Every reference of the index names a stored resource and its repository. */
  ghost predicate Resolves(st: Store, index: map<string, ResourceRef>)
  {
    forall key | key in index :: index[key].id in st.resources && index[key].repoId == st.resources[index[key].id].repo
  }

  // ---------------------------------------------------------------------
  // Facts about the grouping

  /** A resource with no series row has no labels. */
  lemma {:induction false} LabelsNeedTarget(rows: seq<Row>, index: map<string, ResourceRef>, rid: nat)
    requires rid !in SeriesTargets(rows, index)
    ensures SeriesLabels(rows, index, rid) == []
  {
    if rows != [] {
      LabelsNeedTarget(rows[..|rows| - 1], index, rid);
    }
  }

  /** A label never seen for a resource has no rows. */
  lemma {:induction false} RowsNeedLabel(rows: seq<Row>, index: map<string, ResourceRef>, rid: nat, s: string)
    requires s !in SeriesLabels(rows, index, rid)
    ensures SeriesRows(rows, index, rid, s) == []
  {
    if rows != [] {
      RowsNeedLabel(rows[..|rows| - 1], index, rid, s);
    }
  }

  /** A resource with no resource-group row has no rows there. */
  lemma {:induction false} ResourceRowsNeedTarget(rows: seq<Row>, index: map<string, ResourceRef>, rid: nat)
    requires rid !in ResourceTargets(rows, index)
    ensures ResourceRows(rows, index, rid) == []
  {
    if rows != [] {
      ResourceRowsNeedTarget(rows[..|rows| - 1], index, rid);
    }
  }

  /** Every row is accounted for: a skipped row has its complaint with its
      1-based number, an accepted row sits in the group of its resource
      and label, or in its resource's group when it has no label, and its
      resource is cached. */
  lemma {:induction false} RowPlaced(rows: seq<Row>, index: map<string, ResourceRef>, k: nat)
    requires k < |rows|
    ensures Classify(rows[k], index).Skip? ==>
      Skipped(k + 1, Classify(rows[k], index).reason) in SkipComplaints(rows, index)
    ensures Classify(rows[k], index).Accept? ==> Classify(rows[k], index).target.id in AcceptedTargets(rows, index)
    ensures match SeriesOf(Classify(rows[k], index))
      case Some((rid, s)) =>
        && rid in SeriesTargets(rows, index) && s in SeriesLabels(rows, index, rid)
        && Classify(rows[k], index).data in SeriesRows(rows, index, rid, s)
      case None => true
    ensures match ResourceOf(Classify(rows[k], index))
      case Some(rid) =>
        rid in ResourceTargets(rows, index) && Classify(rows[k], index).data in ResourceRows(rows, index, rid)
      case None => true
  {
    var n := |rows| - 1;
    if k < n {
      RowPlaced(rows[..n], index, k);
      assert rows[..n][k] == rows[k];
    }
  }

  /** Every row of a series group is the cleaned form of an accepted row
      of that resource and label. */
  lemma {:induction false} SeriesRowsSound(rows: seq<Row>, index: map<string, ResourceRef>, rid: nat, s: string, d: Row)
    requires d in SeriesRows(rows, index, rid, s)
    ensures exists k | 0 <= k < |rows| ::
      && Classify(rows[k], index).Accept? && Classify(rows[k], index).data == d
      && SeriesOf(Classify(rows[k], index)) == Some((rid, s))
  {
    var n := |rows| - 1;
    var v := Classify(rows[n], index);
    if !(SeriesOf(v) == Some((rid, s)) && d == v.data) {
      SeriesRowsSound(rows[..n], index, rid, s, d);
      var k :| 0 <= k < n && Classify(rows[..n][k], index).Accept? && Classify(rows[..n][k], index).data == d
        && SeriesOf(Classify(rows[..n][k], index)) == Some((rid, s));
      assert rows[..n][k] == rows[k];
    }
  }

  /** Every row of a resource group is the cleaned form of an accepted row
      of that resource without a label. */
  lemma {:induction false} ResourceRowsSound(rows: seq<Row>, index: map<string, ResourceRef>, rid: nat, d: Row)
    requires d in ResourceRows(rows, index, rid)
    ensures exists k | 0 <= k < |rows| ::
      && Classify(rows[k], index).Accept? && Classify(rows[k], index).data == d
      && ResourceOf(Classify(rows[k], index)) == Some(rid)
  {
    var n := |rows| - 1;
    var v := Classify(rows[n], index);
    if !(ResourceOf(v) == Some(rid) && d == v.data) {
      ResourceRowsSound(rows[..n], index, rid, d);
      var k :| 0 <= k < n && Classify(rows[..n][k], index).Accept? && Classify(rows[..n][k], index).data == d
        && ResourceOf(Classify(rows[..n][k], index)) == Some(rid);
      assert rows[..n][k] == rows[k];
    }
  }

  /** A group pass 1 builds is ready for pass 2: it has an id exactly when
      its series exists in the store, and its children are distinct
      children of that series, none of them the series itself. */
  lemma ExpectedGroupValid(st: Store, rid: nat, s: string, data: seq<Row>)
    requires st.Valid() && rid in st.resources
    ensures GroupValid(st, ExpectedGroup(st, rid, s, data))
  {
    var repo := st.resources[rid].repo;
    SeriesLookupFound(st.objects, st.objectOrder, repo, rid, s);
    var g := ExpectedGroup(st, rid, s, data);
    if g.id.Some? {
      var ids := FindChildren(st, g.id.value, repo, rid);
      forall j | 0 <= j < |g.children|
        ensures g.children[j].obj.parent == g.id
      {
        assert g.children[j] == Child(ids[j], st.objects[ids[j]]);
        assert IsChildOf(st.objects[ids[j]], g.id.value, repo, rid);
      }
    }
  }

  // ---------------------------------------------------------------------
  // One more row

  /** A row that joins no series group changes no series list. */
  lemma SeriesStepNone(rows: seq<Row>, index: map<string, ResourceRef>, k: nat)
    requires k < |rows| && SeriesOf(Classify(rows[k], index)).None?
    ensures SeriesTargets(rows[..k + 1], index) == SeriesTargets(rows[..k], index)
    ensures forall rid: nat :: SeriesLabels(rows[..k + 1], index, rid) == SeriesLabels(rows[..k], index, rid)
    ensures forall rid: nat, s :: SeriesRows(rows[..k + 1], index, rid, s) == SeriesRows(rows[..k], index, rid, s)
  {
    assert rows[..k + 1][..k] == rows[..k];
  }

  /** A row of the series group (`rid`, `s`) extends that group's lists only. */
  lemma SeriesStepSome(rows: seq<Row>, index: map<string, ResourceRef>, k: nat, rid: nat, s: string)
    requires k < |rows| && SeriesOf(Classify(rows[k], index)) == Some((rid, s))
    ensures SeriesTargets(rows[..k + 1], index) == SeriesTargets(rows[..k], index) + [rid]
    ensures SeriesLabels(rows[..k + 1], index, rid) == SeriesLabels(rows[..k], index, rid) + [s]
    ensures forall r: nat | r != rid :: SeriesLabels(rows[..k + 1], index, r) == SeriesLabels(rows[..k], index, r)
    ensures SeriesRows(rows[..k + 1], index, rid, s) == SeriesRows(rows[..k], index, rid, s) + [Classify(rows[k], index).data]
    ensures forall r: nat, l | r != rid || l != s :: SeriesRows(rows[..k + 1], index, r, l) == SeriesRows(rows[..k], index, r, l)
  {
    assert rows[..k + 1][..k] == rows[..k];
  }

  /** A row that joins no resource group changes no resource list. */
  lemma ResourceStepNone(rows: seq<Row>, index: map<string, ResourceRef>, k: nat)
    requires k < |rows| && ResourceOf(Classify(rows[k], index)).None?
    ensures ResourceTargets(rows[..k + 1], index) == ResourceTargets(rows[..k], index)
    ensures forall rid: nat :: ResourceRows(rows[..k + 1], index, rid) == ResourceRows(rows[..k], index, rid)
  {
    assert rows[..k + 1][..k] == rows[..k];
  }

  /** A row of the resource group of `rid` extends that group's rows only. */
  lemma ResourceStepSome(rows: seq<Row>, index: map<string, ResourceRef>, k: nat, rid: nat)
    requires k < |rows| && ResourceOf(Classify(rows[k], index)) == Some(rid)
    ensures ResourceTargets(rows[..k + 1], index) == ResourceTargets(rows[..k], index) + [rid]
    ensures ResourceRows(rows[..k + 1], index, rid) == ResourceRows(rows[..k], index, rid) + [Classify(rows[k], index).data]
    ensures forall r: nat | r != rid :: ResourceRows(rows[..k + 1], index, r) == ResourceRows(rows[..k], index, r)
  {
    assert rows[..k + 1][..k] == rows[..k];
  }

  /** A skipped row adds its complaint, an accepted one none. */
  lemma SkipStep(rows: seq<Row>, index: map<string, ResourceRef>, k: nat)
    requires k < |rows|
    ensures SkipComplaints(rows[..k + 1], index) == SkipComplaints(rows[..k], index) +
      if Classify(rows[k], index).Skip? then [Skipped(k + 1, Classify(rows[k], index).reason)] else []
  {
    assert rows[..k + 1][..k] == rows[..k];
  }

  /** Membership in a deduplicated key list is membership in the list. */
  lemma InDedup<T>(s: seq<T>, x: T)
    ensures x in Dedup(s) <==> x in s
  {
    if x in s {
      var i :| 0 <= i < |s| && s[i] == x;
    }
    if x in Dedup(s) {
      var i :| 0 <= i < |Dedup(s)| && Dedup(s)[i] == x;
    }
  }

  /** A row without a series label leaves `series_groups` as it was. */
  lemma SeriesGroupedSkip(st: Store, index: map<string, ResourceRef>, rows: seq<Row>, k: nat,
                          sg: OrderedMap<nat, OrderedMap<string, SeriesGroup>>)
    requires st.Valid() && k < |rows|
    requires SeriesGrouped(st, index, rows[..k], sg)
    requires SeriesOf(Classify(rows[k], index)).None?
    ensures SeriesGrouped(st, index, rows[..k + 1], sg)
  {
    SeriesStepNone(rows, index, k);
  }

  /** The inner hash of a resource, as `series_groups[resource_id]` yields it. */
  function Inner(sg: OrderedMap<nat, OrderedMap<string, SeriesGroup>>, rid: nat): OrderedMap<string, SeriesGroup>
  {
    if rid in sg.entries then sg.entries[rid] else Empty()
  }

  /** The inner hash of one resource after a row of its series `s`. */
  lemma InnerPut(st: Store, index: map<string, ResourceRef>, rows: seq<Row>, k: nat, rid: nat, s: string,
                 inner: OrderedMap<string, SeriesGroup>, g: SeriesGroup)
    requires st.Valid() && k < |rows|
    requires SeriesOf(Classify(rows[k], index)) == Some((rid, s))
    requires InnerGrouped(st, index, rows[..k], rid, inner)
    requires g == ExpectedGroup(st, rid, s, SeriesRows(rows[..k + 1], index, rid, s))
    ensures InnerGrouped(st, index, rows[..k + 1], rid, inner.Put(s, g))
  {
    SeriesStepSome(rows, index, k, rid, s);
    PutKeys(inner, SeriesLabels(rows[..k], index, rid), s, g);
    var inner' := inner.Put(s, g);
    forall l | l in inner'.entries
      ensures inner'.entries[l] == ExpectedGroup(st, rid, l, SeriesRows(rows[..k + 1], index, rid, l))
    {
      if l != s {
        assert inner'.entries[l] == inner.entries[l];
      }
    }
  }

  /** A labelled row stores its group, with the row appended, back under
      its resource and label. */
  lemma SeriesGroupedPut(st: Store, index: map<string, ResourceRef>, rows: seq<Row>, k: nat,
                         sg: OrderedMap<nat, OrderedMap<string, SeriesGroup>>, rid: nat, s: string, g: SeriesGroup)
    requires st.Valid() && k < |rows| && rid in st.resources
    requires SeriesGrouped(st, index, rows[..k], sg)
    requires SeriesOf(Classify(rows[k], index)) == Some((rid, s))
    requires g == ExpectedGroup(st, rid, s, SeriesRows(rows[..k + 1], index, rid, s))
    ensures SeriesGrouped(st, index, rows[..k + 1], sg.Put(rid, Inner(sg, rid).Put(s, g)))
  {
    var pre := rows[..k];
    var inner := Inner(sg, rid);
    if rid !in sg.entries {
      InDedup(SeriesTargets(pre, index), rid);
      LabelsNeedTarget(pre, index, rid);
    }
    assert InnerGrouped(st, index, pre, rid, inner);
    InnerPut(st, index, rows, k, rid, s, inner, g);
    OtherResourcesKept(st, index, rows, k, sg, rid, s, inner.Put(s, g));
  }

  /** Storing under `rid` keeps every other resource's inner hash right. */
  lemma OtherResourcesKept(st: Store, index: map<string, ResourceRef>, rows: seq<Row>, k: nat,
                           sg: OrderedMap<nat, OrderedMap<string, SeriesGroup>>, rid: nat, s: string,
                           inner': OrderedMap<string, SeriesGroup>)
    requires st.Valid() && k < |rows|
    requires SeriesGrouped(st, index, rows[..k], sg)
    requires SeriesOf(Classify(rows[k], index)) == Some((rid, s))
    requires InnerGrouped(st, index, rows[..k + 1], rid, inner')
    ensures SeriesGrouped(st, index, rows[..k + 1], sg.Put(rid, inner'))
  {
    assert SeriesTargets(rows[..k + 1], index) == SeriesTargets(rows[..k], index) + [rid] by {
      assert rows[..k + 1][..k] == rows[..k];
    }
    PutKeys(sg, SeriesTargets(rows[..k], index), rid, inner');
    var sg' := sg.Put(rid, inner');
    forall r | r in sg'.entries
      ensures InnerGrouped(st, index, rows[..k + 1], r, sg'.entries[r])
    {
      if r != rid {
        InnerUnchanged(st, index, rows, k, rid, s, r, sg.entries[r]);
      }
    }
  }

  /** The inner hash of a resource the row does not name stays right. */
  lemma InnerUnchanged(st: Store, index: map<string, ResourceRef>, rows: seq<Row>, k: nat, rid: nat, s: string,
                       r: nat, inner: OrderedMap<string, SeriesGroup>)
    requires st.Valid() && k < |rows| && r != rid
    requires SeriesOf(Classify(rows[k], index)) == Some((rid, s))
    requires InnerGrouped(st, index, rows[..k], r, inner)
    ensures InnerGrouped(st, index, rows[..k + 1], r, inner)
  {
    assert rows[..k + 1][..k] == rows[..k];
  }

  /** A row without a resource group leaves `resource_groups` as it was. */
  lemma ResourceGroupedSkip(st: Store, index: map<string, ResourceRef>, rows: seq<Row>, k: nat,
                            rg: OrderedMap<nat, ResourceGroup>)
    requires k < |rows|
    requires ResourceGrouped(st, index, rows[..k], rg)
    requires ResourceOf(Classify(rows[k], index)).None?
    ensures ResourceGrouped(st, index, rows[..k + 1], rg)
  {
    ResourceStepNone(rows, index, k);
  }

  /** An unlabelled row is appended to its resource's group. */
  lemma ResourceGroupedPut(st: Store, index: map<string, ResourceRef>, rows: seq<Row>, k: nat,
                           rg: OrderedMap<nat, ResourceGroup>, rid: nat, grp: ResourceGroup)
    requires k < |rows| && rid in st.resources
    requires ResourceGrouped(st, index, rows[..k], rg)
    requires ResourceOf(Classify(rows[k], index)) == Some(rid)
    requires grp == ResourceGroup(st.resources[rid].repo, ResourceRows(rows[..k + 1], index, rid))
    ensures ResourceGrouped(st, index, rows[..k + 1], rg.Put(rid, grp))
  {
    ResourceStepSome(rows, index, k, rid);
    PutKeys(rg, ResourceTargets(rows[..k], index), rid, grp);
    var rg' := rg.Put(rid, grp);
    forall r | r in rg'.entries
      ensures r in st.resources
      ensures rg'.entries[r] == ResourceGroup(st.resources[r].repo, ResourceRows(rows[..k + 1], index, r))
    {
      if r != rid {
        assert rg'.entries[r] == rg.entries[r];
      }
    }
  }

  /** The resource of an accepted row is cached on first sight. */
  lemma CachedStep(st: Store, index: map<string, ResourceRef>, rows: seq<Row>, k: nat,
                   cache: map<nat, Resource>, cache': map<nat, Resource>)
    requires k < |rows|
    requires Cached(st, index, rows[..k], cache)
    requires var v := Classify(rows[k], index);
      if v.Accept? then v.target.id in st.resources && cache' == cache[v.target.id := st.resources[v.target.id]]
      else cache' == cache
    ensures Cached(st, index, rows[..k + 1], cache')
  {
    assert rows[..k + 1][..k] == rows[..k];
  }

  /** `series_groups`, `resource_groups`, `resource_cache` and the
      complaints after the rows `rows`. */
  ghost predicate Grouped(st: Store, index: map<string, ResourceRef>, rows: seq<Row>,
                          sg: OrderedMap<nat, OrderedMap<string, SeriesGroup>>, rg: OrderedMap<nat, ResourceGroup>,
                          cache: map<nat, Resource>, complaints: seq<Complaint>)
    requires st.Valid()
  {
    && SeriesGrouped(st, index, rows, sg)
    && ResourceGrouped(st, index, rows, rg)
    && Cached(st, index, rows, cache)
    && complaints == SkipComplaints(rows, index)
  }

  // ---------------------------------------------------------------------
  // The loops

  /** Lines 150-156: the children of the found series, fetched one by one. */
  method FetchChildren(st: Store, parent: nat, repo: nat, rid: nat) returns (children: seq<Child>)
    requires st.Valid()
    ensures children == Fetched(st, FindChildren(st, parent, repo, rid))
  {
    var ids := FindChildren(st, parent, repo, rid);
    children := [];
    for j := 0 to |ids|
      invariant |children| == j
      invariant forall q | 0 <= q < j :: children[q] == Child(ids[q], st.objects[ids[q]])
    {
      children := children + [Child(ids[j], st.objects[ids[j]])];
    }
  }

  /** Lines 132-160 for a row of series `s` of resource `rid`: the group is
      created on first sight, its series looked up while it has no id, its
      children fetched when the series is found, and the row appended. */
  method AddSeriesRow(st: Store, index: map<string, ResourceRef>, rows: seq<Row>, k: nat,
                      sg: OrderedMap<nat, OrderedMap<string, SeriesGroup>>,
                      rid: nat, repo: nat, s: string, resource: Resource)
    returns (sg': OrderedMap<nat, OrderedMap<string, SeriesGroup>>)
    requires st.Valid() && k < |rows| && rid in st.resources
    requires SeriesGrouped(st, index, rows[..k], sg)
    requires SeriesOf(Classify(rows[k], index)) == Some((rid, s))
    requires repo == st.resources[rid].repo && resource == st.resources[rid]
    ensures SeriesGrouped(st, index, rows[..k + 1], sg')
  {
    var data := Classify(rows[k], index).data;
    var pre := rows[..k];
    SeriesStepSome(rows, index, k, rid, s);
    var inner := Inner(sg, rid);
    var g;
    if s in inner.entries {
      g := inner.entries[s];
      assert g == ExpectedGroup(st, rid, s, SeriesRows(pre, index, rid, s));
    } else {
      g := SeriesGroup(None, repo, rid, resource.uri, [], false, []);
      if rid in sg.entries {
        InDedup(SeriesLabels(pre, index, rid), s);
      } else {
        InDedup(SeriesTargets(pre, index), rid);
        LabelsNeedTarget(pre, index, rid);
      }
      RowsNeedLabel(pre, index, rid, s);
    }
    if g.id.None? {
      var found := FindSeries(st, repo, rid, s);
      if found.Some? {
        var children := FetchChildren(st, found.value, repo, rid);
        g := g.(id := found, existing := true, children := children);
      }
    }
    g := g.(data := g.data + [data]);
    SeriesGroupedPut(st, index, rows, k, sg, rid, s, g);
    sg' := sg.Put(rid, inner.Put(s, g));
  }

  /** Lines 163-169 for a row of resource `rid` without a series label:
      the group is created on first sight and the row appended. */
  method AddResourceRow(st: Store, index: map<string, ResourceRef>, rows: seq<Row>, k: nat,
                        rg: OrderedMap<nat, ResourceGroup>, rid: nat, repo: nat)
    returns (rg': OrderedMap<nat, ResourceGroup>)
    requires k < |rows| && rid in st.resources
    requires ResourceGrouped(st, index, rows[..k], rg)
    requires ResourceOf(Classify(rows[k], index)) == Some(rid)
    requires repo == st.resources[rid].repo
    ensures ResourceGrouped(st, index, rows[..k + 1], rg')
  {
    var data := Classify(rows[k], index).data;
    var grp := if rid in rg.entries then rg.entries[rid] else ResourceGroup(repo, []);
    if rid !in rg.entries {
      InDedup(ResourceTargets(rows[..k], index), rid);
      ResourceRowsNeedTarget(rows[..k], index, rid);
    }
    grp := grp.(data := grp.data + [data]);
    ResourceStepSome(rows, index, k, rid);
    ResourceGroupedPut(st, index, rows, k, rg, rid, grp);
    rg' := rg.Put(rid, grp);
  }

  /** Lines 123-177 for an accepted row: it joins its series group or its
      resource group, and its resource is cached on first sight. */
  method GroupAccepted(st: Store, index: map<string, ResourceRef>, rows: seq<Row>, k: nat,
                       sg: OrderedMap<nat, OrderedMap<string, SeriesGroup>>, rg: OrderedMap<nat, ResourceGroup>,
                       cache: map<nat, Resource>)
    returns (sg': OrderedMap<nat, OrderedMap<string, SeriesGroup>>, rg': OrderedMap<nat, ResourceGroup>,
             cache': map<nat, Resource>)
    requires st.Valid() && Resolves(st, index) && k < |rows| && Classify(rows[k], index).Accept?
    requires SeriesGrouped(st, index, rows[..k], sg)
    requires ResourceGrouped(st, index, rows[..k], rg)
    requires Cached(st, index, rows[..k], cache)
    ensures SeriesGrouped(st, index, rows[..k + 1], sg')
    ensures ResourceGrouped(st, index, rows[..k + 1], rg')
    ensures Cached(st, index, rows[..k + 1], cache')
  {
    var v := Classify(rows[k], index);
    var data, rid, repo := v.data, v.target.id, v.target.repoId;
    var resource := if rid in cache then cache[rid] else st.resources[rid];
    sg', rg' := sg, rg;
    if data.series.Some? {
      sg' := AddSeriesRow(st, index, rows, k, sg, rid, repo, data.series.value, resource);
      ResourceGroupedSkip(st, index, rows, k, rg);
    } else {
      rg' := AddResourceRow(st, index, rows, k, rg, rid, repo);
      SeriesGroupedSkip(st, index, rows, k, sg);
    }
    cache' := if rid in cache then cache else cache[rid := resource];
    CachedStep(st, index, rows, k, cache, cache');
  }

  /** Lines 101-177 for the row `rows[k]`, counted `k + 1`. */
  method GroupRow(st: Store, index: map<string, ResourceRef>, rows: seq<Row>, k: nat,
                  sg: OrderedMap<nat, OrderedMap<string, SeriesGroup>>, rg: OrderedMap<nat, ResourceGroup>,
                  cache: map<nat, Resource>, complaints: seq<Complaint>)
    returns (sg': OrderedMap<nat, OrderedMap<string, SeriesGroup>>, rg': OrderedMap<nat, ResourceGroup>,
             cache': map<nat, Resource>, complaints': seq<Complaint>)
    requires st.Valid() && Resolves(st, index) && k < |rows|
    requires Grouped(st, index, rows[..k], sg, rg, cache, complaints)
    ensures Grouped(st, index, rows[..k + 1], sg', rg', cache', complaints')
  {
    var count := k + 1;
    var v := Classify(rows[k], index);
    if v.Skip? {
      sg', rg', cache', complaints' := sg, rg, cache, complaints + [Skipped(count, v.reason)];
      SeriesGroupedSkip(st, index, rows, k, sg);
      ResourceGroupedSkip(st, index, rows, k, rg);
      CachedStep(st, index, rows, k, cache, cache');
    } else {
      sg', rg', cache' := GroupAccepted(st, index, rows, k, sg, rg, cache);
      complaints' := complaints;
    }
    SkipStep(rows, index, k);
  }

  /** Lines 97-180, pass 1: the resource index is built, then each row is
      grouped in CSV order. */
  method GroupRows(st: Store, rows: seq<Row>)
    returns (index: map<string, ResourceRef>,
             sg: OrderedMap<nat, OrderedMap<string, SeriesGroup>>, rg: OrderedMap<nat, ResourceGroup>,
             cache: map<nat, Resource>, complaints: seq<Complaint>)
    requires st.Valid()
    ensures index == IndexOf(st.resources, st.resourceOrder)
    ensures Grouped(st, index, rows, sg, rg, cache, complaints)
  {
    index := ParsedResources(st);
    IndexResolves(st.resources, st.resourceOrder);
    sg, rg, cache, complaints := Empty(), Empty(), map[], [];
    for k := 0 to |rows|
      invariant Grouped(st, index, rows[..k], sg, rg, cache, complaints)
    {
      sg, rg, cache, complaints := GroupRow(st, index, rows, k, sg, rg, cache, complaints);
    }
    assert rows[..|rows|] == rows;
  }
}
