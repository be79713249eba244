/** Pass 2 (the top-level code of lines 183-260, after the loaded hook)
    and the run as a whole:
    every series group is imported in hash order, then every resource
    group gets its rows as new box containers on the resource. */
module Importer {
  import opened Options
  import opened OrderedHash
  import opened Records
  import opened Store
  import opened Rows
  import opened Groups
  import opened SeriesImport
  import opened Grouping

  // ---------------------------------------------------------------------
  // Series groups

  /** What pass 2 may do to the store: add archival objects and rewrite
      them, never drop one, never touch a resource. */
  ghost predicate Grows(st: Store, st': Store)
  {
    && st.Valid() && st'.Valid()
    && st'.resources == st.resources && st'.resourceOrder == st.resourceOrder
    && st'.rejects == st.rejects
    && st.objects.Keys <= st'.objects.Keys
    && st.nextId <= st'.nextId
  }

  /** The store effect of importing the group `g` of label `s`, read
      against the store `st0`: its series `sid` is the stored series, or an
      object `st0` did not hold, and carries the rows no child matched as
      new box containers after its old instances; each child holds the
      rows' barcodes when some row touched it and the store accepted the
      update, and is as it was in `st0` otherwise. */
  ghost predicate SeriesImported(st0: Store, st: Store, s: string, g: SeriesGroup, sid: nat)
  {
    && GroupValid(st0, g)
    && st0.objects.Keys <= st.objects.Keys
    && (g.existing ==> sid == g.id.value)
    && (!g.existing ==> st0.nextId <= sid)
    && sid in st.objects
    && st.objects[sid] ==
         SeriesBase(st0, s, g).(instances := SeriesBase(st0, s, g).instances + Containers(Remaining(g.data, g.children)))
    && forall j | 0 <= j < |g.children| ::
         st.objects[g.children[j].id] ==
           if Touched(g.children[j].obj.instances, g.data) && g.children[j].id !in st0.rejects
           then UpdatedChild(g.children[j], g.data).obj else st0.objects[g.children[j].id]
  }

  /** A group imported into `g'`: the group value as one import leaves it,
      and its store effect. */
  ghost predicate Imported(st0: Store, st: Store, s: string, g: SeriesGroup, g': SeriesGroup)
  {
    && g'.id.Some?
    && GroupImported(g, g', g'.id.value)
    && SeriesImported(st0, st, s, g, g'.id.value)
  }

  /** What importing `g` into `g'` does to `st` as the other groups see it:
      the series is `g`'s own or gets the next id, that is the only object
      added, and only the series and `g`'s children change. */
  ghost predicate Wrote(st: Store, st': Store, g: SeriesGroup, g': SeriesGroup)
  {
    && g'.id.Some?
    && g'.id == (if g.existing then g.id else Some(st.nextId))
    && st'.objects.Keys == st.objects.Keys + {g'.id.value}
    && forall id | id in st.objects && id != g'.id.value && !IsChildId(g.children, id) ::
         st'.objects[id] == st.objects[id]
  }

  /** The series and children of `g` are as they were in `st0`. */
  ghost predicate Untouched(st0: Store, st: Store, g: SeriesGroup)
  {
    && (g.existing ==>
          g.id.Some? && g.id.value in st0.objects && g.id.value in st.objects
          && st.objects[g.id.value] == st0.objects[g.id.value])
    && forall j | 0 <= j < |g.children| ::
         g.children[j].id in st0.objects && g.children[j].id in st.objects
         && st.objects[g.children[j].id] == st0.objects[g.children[j].id]
  }

  /** The complaints of the groups under `keys` of one resource, in order. */
  function InnerFailures(inner: OrderedMap<string, SeriesGroup>, keys: seq<string>, rejects: set<nat>): seq<Complaint>
    requires forall q | 0 <= q < |keys| :: keys[q] in inner.entries
  {
    if keys == [] then []
    else
      var g := inner.entries[keys[|keys| - 1]];
      InnerFailures(inner, keys[..|keys| - 1], rejects) + FailedUpdates(g.data, g.children, rejects)
  }

  /** The complaints of the resources under `keys`, in order. */
  function SeriesFailures(sg: OrderedMap<nat, OrderedMap<string, SeriesGroup>>, keys: seq<nat>, rejects: set<nat>)
    : seq<Complaint>
    requires forall q | 0 <= q < |keys| :: keys[q] in sg.entries
    requires forall rid | rid in sg.entries :: sg.entries[rid].Valid()
  {
    if keys == [] then []
    else
      var inner := sg.entries[keys[|keys| - 1]];
      SeriesFailures(sg, keys[..|keys| - 1], rejects) + InnerFailures(inner, inner.keys, rejects)
  }

  lemma GrowsTrans(st0: Store, st1: Store, st2: Store)
    requires Grows(st0, st1) && Grows(st1, st2)
    ensures Grows(st0, st2)
  {
  }

  /** Pass 1's facts about a group survive a store that only grew. */
  lemma GroupValidGrows(st: Store, st': Store, g: SeriesGroup)
    requires GroupValid(st, g) && st.objects.Keys <= st'.objects.Keys
    ensures GroupValid(st', g)
  {
  }

  /** A group imported against `st`, whose series and children `st` still
      held as `st0` did, is imported against `st0`. */
  lemma ImportedRebase(st0: Store, st: Store, st1: Store, s: string, g: SeriesGroup, g': SeriesGroup)
    requires Grows(st0, st) && GroupValid(st0, g) && Untouched(st0, st, g)
    requires Imported(st, st1, s, g, g')
    ensures Imported(st0, st1, s, g, g')
  {
    assert SeriesBase(st, s, g) == SeriesBase(st0, s, g);
  }

  /** An import that wrote a group separate from `p` keeps `p`'s import. */
  lemma ImportedKept(st0: Store, st: Store, st1: Store, s: string, p: SeriesGroup, p': SeriesGroup,
                     g: SeriesGroup, g': SeriesGroup)
    requires Grows(st0, st) && Grows(st, st1)
    requires Imported(st0, st, s, p, p')
    requires GroupValid(st0, g) && Wrote(st, st1, g, g') && Separate(p, g)
    ensures Imported(st0, st1, s, p, p')
  {
    var pid := p'.id.value;
    if p.existing {
      assert InFootprint(p, pid);
    }
    assert pid != g'.id.value && !IsChildId(g.children, pid);
    forall j | 0 <= j < |p.children|
      ensures st1.objects[p.children[j].id] == st.objects[p.children[j].id]
    {
      assert InFootprint(p, p.children[j].id);
    }
  }

  /** An import that wrote a group separate from `u` leaves `u` untouched. */
  lemma UntouchedKept(st0: Store, st: Store, st1: Store, u: SeriesGroup, g: SeriesGroup, g': SeriesGroup)
    requires Grows(st0, st) && Untouched(st0, st, u)
    requires GroupValid(st0, g) && Wrote(st, st1, g, g') && Separate(u, g)
    ensures Untouched(st0, st1, u)
  {
    if u.existing {
      assert InFootprint(u, u.id.value);
    }
    forall j | 0 <= j < |u.children|
      ensures st1.objects[u.children[j].id] == st.objects[u.children[j].id]
    {
      assert InFootprint(u, u.children[j].id);
    }
  }

  /** One group of the inner loop at lines 184-240: the whole effect of
      importing it, and which objects it may have written. */
  method ImportOne(st: Store, s: string, g: SeriesGroup)
    returns (st': Store, g': SeriesGroup, fails: seq<Complaint>)
    requires st.Valid() && GroupValid(st, g)
    ensures Grows(st, st')
    ensures Wrote(st, st', g, g')
    ensures Imported(st, st', s, g, g')
    ensures fails == FailedUpdates(g.data, g.children, st.rejects)
  {
    st', g', fails := ImportSeriesGroup(st, s, g);
  }

  /** The groups of one resource as pass 1 hands them over: valid, and no
      two of them share a series or a child. */
  ghost predicate InnerReady(st: Store, inner: OrderedMap<string, SeriesGroup>)
  {
    && inner.Valid()
    && (forall s | s in inner.entries :: GroupValid(st, inner.entries[s]))
    && forall s1, s2 | s1 in inner.entries && s2 in inner.entries && s1 != s2 ::
         Separate(inner.entries[s1], inner.entries[s2])
  }

  lemma InnerReadyGrows(st: Store, st': Store, inner: OrderedMap<string, SeriesGroup>)
    requires InnerReady(st, inner) && st.objects.Keys <= st'.objects.Keys
    ensures InnerReady(st', inner)
  {
    forall s | s in inner.entries
      ensures GroupValid(st', inner.entries[s])
    {
      GroupValidGrows(st, st', inner.entries[s]);
    }
  }

  /** Every archival object of `st0` is still held, and is as it was unless
      it is the series or a child of one of the groups of `inner`. */
  ghost predicate InnerOutside(st0: Store, st: Store, inner: OrderedMap<string, SeriesGroup>)
  {
    forall id | id in st0.objects ::
      && id in st.objects
      && (st.objects[id] == st0.objects[id] || exists s | s in inner.entries :: InFootprint(inner.entries[s], id))
  }

  /** Every archival object `st` holds that `st0` did not is the series
      created for a group of `inner` whose series was missing. */
  ghost predicate InnerCreated(st0: Store, st: Store, inner: OrderedMap<string, SeriesGroup>,
                               inner': OrderedMap<string, SeriesGroup>)
  {
    forall id | id in st.objects && id !in st0.objects ::
      exists s | s in inner.entries ::
        !inner.entries[s].existing && s in inner'.entries && inner'.entries[s].id == Some(id)
  }

  /** Importing the pending group `s` creates at most its own series. */
  lemma InnerCreatedStep(st0: Store, st: Store, st1: Store, inner: OrderedMap<string, SeriesGroup>,
                         inner': OrderedMap<string, SeriesGroup>, s: string, g': SeriesGroup)
    requires s in inner.entries && GroupValid(st0, inner.entries[s])
    requires st0.objects.Keys <= st.objects.Keys
    requires s in inner'.entries && inner'.entries[s] == inner.entries[s]
    requires InnerCreated(st0, st, inner, inner')
    requires Wrote(st, st1, inner.entries[s], g')
    ensures InnerCreated(st0, st1, inner, inner'.Put(s, g'))
  {
    var g := inner.entries[s];
    var inner1 := inner'.Put(s, g');
    forall id | id in st1.objects && id !in st0.objects
      ensures exists s' | s' in inner.entries ::
        !inner.entries[s'].existing && s' in inner1.entries && inner1.entries[s'].id == Some(id)
    {
      if id in st.objects {
        var s0 :| s0 in inner.entries && !inner.entries[s0].existing && s0 in inner'.entries && inner'.entries[s0].id == Some(id);
        assert s0 != s;
        assert inner1.entries[s0] == inner'.entries[s0];
      } else {
        assert g'.id == Some(id) && !g.existing;
        assert inner1.entries[s] == g';
      }
    }
  }

  lemma InnerOutsideStep(st0: Store, st: Store, st1: Store, inner: OrderedMap<string, SeriesGroup>,
                         s: string, g': SeriesGroup)
    requires s in inner.entries && GroupValid(st0, inner.entries[s])
    requires Grows(st0, st) && InnerOutside(st0, st, inner)
    requires Wrote(st, st1, inner.entries[s], g')
    ensures InnerOutside(st0, st1, inner)
  {
    var g := inner.entries[s];
    forall id | id in st0.objects
      ensures id in st1.objects
      ensures st1.objects[id] == st0.objects[id] || exists s' | s' in inner.entries :: InFootprint(inner.entries[s'], id)
    {
      if id == g'.id.value || IsChildId(g.children, id) {
        assert InFootprint(g, id);
      }
    }
  }

  /** The state of the inner loop after the first `j` labels: those groups
      are imported, the others untouched, and nothing outside the groups
      changed. */
  ghost predicate InnerDone(st0: Store, st: Store, inner: OrderedMap<string, SeriesGroup>,
                            inner': OrderedMap<string, SeriesGroup>, j: nat, fails: seq<Complaint>)
    requires inner.Valid() && j <= |inner.keys|
  {
    && Grows(st0, st)
    && inner'.keys == inner.keys && inner'.entries.Keys == inner.entries.Keys
    && (forall q | 0 <= q < j ::
          Imported(st0, st, inner.keys[q], inner.entries[inner.keys[q]], inner'.entries[inner.keys[q]]))
    && (forall q | j <= q < |inner.keys| ::
          inner'.entries[inner.keys[q]] == inner.entries[inner.keys[q]]
          && Untouched(st0, st, inner.entries[inner.keys[q]]))
    && InnerOutside(st0, st, inner)
    && fails == InnerFailures(inner, inner.keys[..j], st0.rejects)
  }

  lemma InnerFailuresStep(inner: OrderedMap<string, SeriesGroup>, j: nat, rejects: set<nat>)
    requires inner.Valid() && j < |inner.keys|
    ensures InnerFailures(inner, inner.keys[..j + 1], rejects) ==
      InnerFailures(inner, inner.keys[..j], rejects)
        + FailedUpdates(inner.entries[inner.keys[j]].data, inner.entries[inner.keys[j]].children, rejects)
  {
    assert inner.keys[..j + 1][..j] == inner.keys[..j];
  }

  /** The labels before `j` stay imported when label `j` is imported. */
  lemma InnerImportedStep(st0: Store, st: Store, st1: Store, inner: OrderedMap<string, SeriesGroup>,
                          inner': OrderedMap<string, SeriesGroup>, j: nat, g': SeriesGroup)
    requires InnerReady(st0, inner) && j < |inner.keys|
    requires Grows(st0, st) && Grows(st, st1)
    requires inner'.keys == inner.keys && inner'.entries.Keys == inner.entries.Keys
    requires forall q | 0 <= q < j ::
      Imported(st0, st, inner.keys[q], inner.entries[inner.keys[q]], inner'.entries[inner.keys[q]])
    requires Wrote(st, st1, inner.entries[inner.keys[j]], g')
    ensures forall q | 0 <= q < j ::
      Imported(st0, st1, inner.keys[q], inner.entries[inner.keys[q]], inner'.Put(inner.keys[j], g').entries[inner.keys[q]])
  {
    var s := inner.keys[j];
    forall q | 0 <= q < j
      ensures Imported(st0, st1, inner.keys[q], inner.entries[inner.keys[q]], inner'.Put(s, g').entries[inner.keys[q]])
    {
      assert inner.keys[q] != s;
      ImportedKept(st0, st, st1, inner.keys[q], inner.entries[inner.keys[q]], inner'.entries[inner.keys[q]],
                   inner.entries[s], g');
    }
  }

  /** The labels after `j` stay untouched when label `j` is imported. */
  lemma InnerUntouchedStep(st0: Store, st: Store, st1: Store, inner: OrderedMap<string, SeriesGroup>,
                           inner': OrderedMap<string, SeriesGroup>, j: nat, g': SeriesGroup)
    requires InnerReady(st0, inner) && j < |inner.keys|
    requires Grows(st0, st)
    requires inner'.keys == inner.keys && inner'.entries.Keys == inner.entries.Keys
    requires forall q | j <= q < |inner.keys| ::
      inner'.entries[inner.keys[q]] == inner.entries[inner.keys[q]] && Untouched(st0, st, inner.entries[inner.keys[q]])
    requires Wrote(st, st1, inner.entries[inner.keys[j]], g')
    ensures forall q | j + 1 <= q < |inner.keys| ::
      inner'.Put(inner.keys[j], g').entries[inner.keys[q]] == inner.entries[inner.keys[q]]
      && Untouched(st0, st1, inner.entries[inner.keys[q]])
  {
    var s := inner.keys[j];
    forall q | j < q < |inner.keys|
      ensures inner'.Put(s, g').entries[inner.keys[q]] == inner.entries[inner.keys[q]]
      ensures Untouched(st0, st1, inner.entries[inner.keys[q]])
    {
      assert inner.keys[q] != s;
      UntouchedKept(st0, st, st1, inner.entries[inner.keys[q]], inner.entries[s], g');
    }
  }

  /** The groups before label `j` stay imported, and those after it stay
      untouched, when label `j` is imported. */
  lemma InnerDoneStep(st0: Store, st: Store, st1: Store, inner: OrderedMap<string, SeriesGroup>,
                      inner': OrderedMap<string, SeriesGroup>, j: nat, fails: seq<Complaint>,
                      g': SeriesGroup, f: seq<Complaint>)
    requires InnerReady(st0, inner) && j < |inner.keys|
    requires InnerDone(st0, st, inner, inner', j, fails)
    requires Grows(st, st1) && Wrote(st, st1, inner.entries[inner.keys[j]], g')
    requires Imported(st0, st1, inner.keys[j], inner.entries[inner.keys[j]], g')
    requires f == FailedUpdates(inner.entries[inner.keys[j]].data, inner.entries[inner.keys[j]].children, st0.rejects)
    ensures InnerDone(st0, st1, inner, inner'.Put(inner.keys[j], g'), j + 1, fails + f)
  {
    var s := inner.keys[j];
    InnerFailuresStep(inner, j, st0.rejects);
    InnerImportedStep(st0, st, st1, inner, inner', j, g');
    InnerUntouchedStep(st0, st, st1, inner, inner', j, g');
    InnerOutsideStep(st0, st, st1, inner, s, g');
    GrowsTrans(st0, st, st1);
  }

  /** One more label of the inner loop. */
  method ImportInnerStep(st0: Store, inner: OrderedMap<string, SeriesGroup>, j: nat,
                         st: Store, inner': OrderedMap<string, SeriesGroup>, fails: seq<Complaint>)
    returns (st1: Store, inner1: OrderedMap<string, SeriesGroup>, fails1: seq<Complaint>)
    requires InnerReady(st0, inner) && j < |inner.keys|
    requires InnerDone(st0, st, inner, inner', j, fails)
    requires InnerCreated(st0, st, inner, inner')
    ensures InnerDone(st0, st1, inner, inner1, j + 1, fails1)
    ensures InnerCreated(st0, st1, inner, inner1)
  {
    var s := inner.keys[j];
    var g := inner'.entries[s];
    assert g == inner.entries[s] && Untouched(st0, st, g);
    GroupValidGrows(st0, st, g);
    var g', f;
    st1, g', f := ImportOne(st, s, g);
    ImportedRebase(st0, st, st1, s, g, g');
    InnerDoneStep(st0, st, st1, inner, inner', j, fails, g', f);
    InnerCreatedStep(st0, st, st1, inner, inner', s, g');
    inner1 := inner'.Put(s, g');
    fails1 := fails + f;
  }

  /** Before the first label nothing is imported and every group untouched. */
  lemma InnerDoneStart(st: Store, inner: OrderedMap<string, SeriesGroup>)
    requires st.Valid() && InnerReady(st, inner)
    ensures InnerDone(st, st, inner, inner, 0, [])
  {
    assert inner.keys[..0] == [];
    forall q | 0 <= q < |inner.keys|
      ensures Untouched(st, st, inner.entries[inner.keys[q]])
    {
      assert GroupValid(st, inner.entries[inner.keys[q]]);
    }
  }

  /** After the last label every group of the resource is imported. */
  lemma InnerDoneAll(st0: Store, st: Store, inner: OrderedMap<string, SeriesGroup>,
                     inner': OrderedMap<string, SeriesGroup>, fails: seq<Complaint>)
    requires inner.Valid()
    requires InnerDone(st0, st, inner, inner', |inner.keys|, fails)
    ensures inner'.Valid()
    ensures forall s | s in inner.entries :: s in inner'.entries && Imported(st0, st, s, inner.entries[s], inner'.entries[s])
    ensures fails == InnerFailures(inner, inner.keys, st0.rejects)
  {
    assert inner.keys[..|inner.keys|] == inner.keys;
    forall s | s in inner.entries
      ensures s in inner'.entries && Imported(st0, st, s, inner.entries[s], inner'.entries[s])
    {
      InnerDoneImported(st0, st, inner, inner', fails, s);
    }
  }

  /** After the last label the group of `s` is imported. */
  lemma InnerDoneImported(st0: Store, st: Store, inner: OrderedMap<string, SeriesGroup>,
                          inner': OrderedMap<string, SeriesGroup>, fails: seq<Complaint>, s: string)
    requires inner.Valid() && s in inner.entries
    requires InnerDone(st0, st, inner, inner', |inner.keys|, fails)
    ensures s in inner'.entries && Imported(st0, st, s, inner.entries[s], inner'.entries[s])
  {
    var q :| 0 <= q < |inner.keys| && inner.keys[q] == s;
  }

  /** Lines 184-240 for the groups of one resource, in label order: every
      group is imported as one import alone would import it, no object
      outside the groups changes, and the only objects added are the series
      of groups whose series was missing. */
  method ImportInner(st: Store, inner: OrderedMap<string, SeriesGroup>)
    returns (st': Store, inner': OrderedMap<string, SeriesGroup>, fails: seq<Complaint>)
    requires st.Valid() && InnerReady(st, inner)
    ensures Grows(st, st')
    ensures inner'.Valid() && inner'.keys == inner.keys
    ensures forall s | s in inner.entries :: s in inner'.entries && Imported(st, st', s, inner.entries[s], inner'.entries[s])
    ensures InnerOutside(st, st', inner)
    ensures InnerCreated(st, st', inner, inner')
    ensures fails == InnerFailures(inner, inner.keys, st.rejects)
  {
    st', inner', fails := st, inner, [];
    InnerDoneStart(st, inner);
    for j := 0 to |inner.keys|
      invariant InnerDone(st, st', inner, inner', j, fails)
      invariant InnerCreated(st, st', inner, inner')
    {
      st', inner', fails := ImportInnerStep(st, inner, j, st', inner', fails);
    }
    InnerDoneAll(st, st', inner, inner', fails);
  }

  /** No group of `a` shares a series or a child with a group of `b`. */
  ghost predicate InnersSeparate(a: OrderedMap<string, SeriesGroup>, b: OrderedMap<string, SeriesGroup>)
  {
    forall s1, s2 | s1 in a.entries && s2 in b.entries :: Separate(a.entries[s1], b.entries[s2])
  }

  /** The series groups as pass 1 hands them over: each resource's groups
      are ready, and groups of different resources share no object. */
  ghost predicate Ready(st: Store, sg: OrderedMap<nat, OrderedMap<string, SeriesGroup>>)
  {
    && sg.Valid()
    && (forall rid | rid in sg.entries :: InnerReady(st, sg.entries[rid]))
    && forall r1, r2 | r1 in sg.entries && r2 in sg.entries && r1 != r2 ::
         InnersSeparate(sg.entries[r1], sg.entries[r2])
  }

  /** Every group of `sg` imported into `sg'`, under the same keys. */
  ghost predicate AllImported(st0: Store, st: Store, sg: OrderedMap<nat, OrderedMap<string, SeriesGroup>>,
                              sg': OrderedMap<nat, OrderedMap<string, SeriesGroup>>, rid: nat)
    requires rid in sg.entries && rid in sg'.entries
  {
    && sg'.entries[rid].keys == sg.entries[rid].keys
    && forall s | s in sg.entries[rid].entries ::
         s in sg'.entries[rid].entries && Imported(st0, st, s, sg.entries[rid].entries[s], sg'.entries[rid].entries[s])
  }

  ghost predicate AllUntouched(st0: Store, st: Store, inner: OrderedMap<string, SeriesGroup>)
  {
    forall s | s in inner.entries :: Untouched(st0, st, inner.entries[s])
  }

  /** Every archival object of `st0` is still held, and is as it was unless
      it is the series or a child of some series group. */
  ghost predicate Outside(st0: Store, st: Store, sg: OrderedMap<nat, OrderedMap<string, SeriesGroup>>)
  {
    forall id | id in st0.objects ::
      && id in st.objects
      && (|| st.objects[id] == st0.objects[id]
          || exists rid, s | rid in sg.entries && s in sg.entries[rid].entries ::
               InFootprint(sg.entries[rid].entries[s], id))
  }

  /** Importing the groups of another resource keeps a group's import. */
  lemma ImportedKeptInner(st0: Store, st: Store, st1: Store, s: string, p: SeriesGroup, p': SeriesGroup,
                          inner: OrderedMap<string, SeriesGroup>)
    requires Grows(st0, st) && Grows(st, st1)
    requires Imported(st0, st, s, p, p')
    requires forall s' | s' in inner.entries :: GroupValid(st0, inner.entries[s']) && Separate(p, inner.entries[s'])
    requires InnerOutside(st, st1, inner)
    ensures Imported(st0, st1, s, p, p')
  {
    var pid := p'.id.value;
    forall s' | s' in inner.entries
      ensures !InFootprint(inner.entries[s'], pid)
    {
      if p.existing {
        assert InFootprint(p, pid);
      }
    }
    forall j | 0 <= j < |p.children|
      ensures st1.objects[p.children[j].id] == st.objects[p.children[j].id]
    {
      assert InFootprint(p, p.children[j].id);
    }
  }

  /** Importing the groups of another resource leaves a group untouched. */
  lemma UntouchedKeptInner(st0: Store, st: Store, st1: Store, u: SeriesGroup, inner: OrderedMap<string, SeriesGroup>)
    requires Grows(st0, st) && Untouched(st0, st, u)
    requires forall s' | s' in inner.entries :: Separate(u, inner.entries[s'])
    requires InnerOutside(st, st1, inner)
    ensures Untouched(st0, st1, u)
  {
    if u.existing {
      assert InFootprint(u, u.id.value);
    }
    forall j | 0 <= j < |u.children|
      ensures st1.objects[u.children[j].id] == st.objects[u.children[j].id]
    {
      assert InFootprint(u, u.children[j].id);
    }
  }

  lemma AllImportedKept(st0: Store, st: Store, st1: Store, sg: OrderedMap<nat, OrderedMap<string, SeriesGroup>>,
                        sg': OrderedMap<nat, OrderedMap<string, SeriesGroup>>, r: nat, rid: nat)
    requires Ready(st0, sg) && r in sg.entries && rid in sg.entries && r != rid && r in sg'.entries
    requires Grows(st0, st) && Grows(st, st1)
    requires AllImported(st0, st, sg, sg', r)
    requires InnerOutside(st, st1, sg.entries[rid])
    ensures AllImported(st0, st1, sg, sg', r)
  {
    var inner := sg.entries[rid];
    forall s | s in sg.entries[r].entries
      ensures Imported(st0, st1, s, sg.entries[r].entries[s], sg'.entries[r].entries[s])
    {
      assert InnersSeparate(sg.entries[r], inner);
      ImportedKeptInner(st0, st, st1, s, sg.entries[r].entries[s], sg'.entries[r].entries[s], inner);
    }
  }

  lemma AllUntouchedKept(st0: Store, st: Store, st1: Store, sg: OrderedMap<nat, OrderedMap<string, SeriesGroup>>,
                         r: nat, rid: nat)
    requires Ready(st0, sg) && r in sg.entries && rid in sg.entries && r != rid
    requires Grows(st0, st) && AllUntouched(st0, st, sg.entries[r])
    requires InnerOutside(st, st1, sg.entries[rid])
    ensures AllUntouched(st0, st1, sg.entries[r])
  {
    forall s | s in sg.entries[r].entries
      ensures Untouched(st0, st1, sg.entries[r].entries[s])
    {
      assert InnersSeparate(sg.entries[r], sg.entries[rid]);
      UntouchedKeptInner(st0, st, st1, sg.entries[r].entries[s], sg.entries[rid]);
    }
  }

  lemma OutsideStep(st0: Store, st: Store, st1: Store, sg: OrderedMap<nat, OrderedMap<string, SeriesGroup>>, rid: nat)
    requires rid in sg.entries
    requires Grows(st0, st) && Outside(st0, st, sg) && InnerOutside(st, st1, sg.entries[rid])
    ensures Outside(st0, st1, sg)
  {
    forall id | id in st0.objects
      ensures id in st1.objects
      ensures || st1.objects[id] == st0.objects[id]
              || exists r, s | r in sg.entries && s in sg.entries[r].entries :: InFootprint(sg.entries[r].entries[s], id)
    {
      if st1.objects[id] != st.objects[id] {
        var s :| s in sg.entries[rid].entries && InFootprint(sg.entries[rid].entries[s], id);
      }
    }
  }

  /** Every archival object `st` holds that `st0` did not is the series
      created for a group of `sg` whose series was missing. */
  ghost predicate Created(st0: Store, st: Store, sg: OrderedMap<nat, OrderedMap<string, SeriesGroup>>,
                          sg': OrderedMap<nat, OrderedMap<string, SeriesGroup>>)
  {
    forall id | id in st.objects && id !in st0.objects ::
      exists rid, s | rid in sg.entries && s in sg.entries[rid].entries ::
        && !sg.entries[rid].entries[s].existing
        && rid in sg'.entries && s in sg'.entries[rid].entries
        && sg'.entries[rid].entries[s].id == Some(id)
  }

  /** Importing the pending resource `rid` creates at most the series of
      its own groups. */
  lemma CreatedStep(st0: Store, st: Store, st1: Store, sg: OrderedMap<nat, OrderedMap<string, SeriesGroup>>,
                    sg': OrderedMap<nat, OrderedMap<string, SeriesGroup>>, rid: nat,
                    inner': OrderedMap<string, SeriesGroup>)
    requires rid in sg.entries
    requires forall s | s in sg.entries[rid].entries ::
      sg.entries[rid].entries[s].existing == sg.entries[rid].entries[s].id.Some?
    requires st0.objects.Keys <= st.objects.Keys
    requires rid in sg'.entries && sg'.entries[rid] == sg.entries[rid]
    requires Created(st0, st, sg, sg')
    requires InnerCreated(st, st1, sg.entries[rid], inner')
    ensures Created(st0, st1, sg, sg'.Put(rid, inner'))
  {
    var sg1 := sg'.Put(rid, inner');
    forall id | id in st1.objects && id !in st0.objects
      ensures exists r, s | r in sg.entries && s in sg.entries[r].entries ::
        && !sg.entries[r].entries[s].existing
        && r in sg1.entries && s in sg1.entries[r].entries
        && sg1.entries[r].entries[s].id == Some(id)
    {
      if id in st.objects {
        var r0, s0 :| r0 in sg.entries && s0 in sg.entries[r0].entries
          && !sg.entries[r0].entries[s0].existing
          && r0 in sg'.entries && s0 in sg'.entries[r0].entries
          && sg'.entries[r0].entries[s0].id == Some(id);
        assert r0 != rid;
        assert sg1.entries[r0] == sg'.entries[r0];
        assert r0 in sg1.entries && s0 in sg1.entries[r0].entries && sg1.entries[r0].entries[s0].id == Some(id);
      } else {
        var s :| s in sg.entries[rid].entries && !sg.entries[rid].entries[s].existing
          && s in inner'.entries && inner'.entries[s].id == Some(id);
        assert sg1.entries[rid] == inner';
        assert rid in sg1.entries && s in sg1.entries[rid].entries && sg1.entries[rid].entries[s].id == Some(id);
      }
    }
  }

  lemma SeriesFailuresStep(sg: OrderedMap<nat, OrderedMap<string, SeriesGroup>>, i: nat, rejects: set<nat>)
    requires sg.Valid() && i < |sg.keys|
    requires forall rid | rid in sg.entries :: sg.entries[rid].Valid()
    ensures SeriesFailures(sg, sg.keys[..i + 1], rejects) ==
      SeriesFailures(sg, sg.keys[..i], rejects)
        + InnerFailures(sg.entries[sg.keys[i]], sg.entries[sg.keys[i]].keys, rejects)
  {
    assert sg.keys[..i + 1][..i] == sg.keys[..i];
  }

  /** The state of the outer loop after the first `i` resources. */
  ghost predicate OuterDone(st0: Store, st: Store, sg: OrderedMap<nat, OrderedMap<string, SeriesGroup>>,
                            sg': OrderedMap<nat, OrderedMap<string, SeriesGroup>>, i: nat, fails: seq<Complaint>)
    requires Ready(st0, sg) && i <= |sg.keys|
  {
    && Grows(st0, st)
    && sg'.keys == sg.keys && sg'.entries.Keys == sg.entries.Keys
    && (forall q | 0 <= q < i :: AllImported(st0, st, sg, sg', sg.keys[q]))
    && (forall q | i <= q < |sg.keys| ::
          sg'.entries[sg.keys[q]] == sg.entries[sg.keys[q]] && AllUntouched(st0, st, sg.entries[sg.keys[q]]))
    && Outside(st0, st, sg)
    && fails == SeriesFailures(sg, sg.keys[..i], st0.rejects)
  }

  /** The groups of resource `rid`, imported against `st` whose state of
      them was that of `st0`, are imported against `st0`. */
  lemma AllImportedRebase(st0: Store, st: Store, st1: Store, sg: OrderedMap<nat, OrderedMap<string, SeriesGroup>>,
                          sg1: OrderedMap<nat, OrderedMap<string, SeriesGroup>>, rid: nat,
                          inner': OrderedMap<string, SeriesGroup>)
    requires Ready(st0, sg) && rid in sg.entries
    requires Grows(st0, st) && AllUntouched(st0, st, sg.entries[rid])
    requires inner'.keys == sg.entries[rid].keys
    requires forall s | s in sg.entries[rid].entries ::
      s in inner'.entries && Imported(st, st1, s, sg.entries[rid].entries[s], inner'.entries[s])
    requires rid in sg1.entries && sg1.entries[rid] == inner'
    ensures AllImported(st0, st1, sg, sg1, rid)
  {
    var inner := sg.entries[rid];
    forall s | s in inner.entries
      ensures Imported(st0, st1, s, inner.entries[s], inner'.entries[s])
    {
      assert InnerReady(st0, inner);
      ImportedRebase(st0, st, st1, s, inner.entries[s], inner'.entries[s]);
    }
  }

  /** The resources before `i` stay imported while resource `i` is
      imported. */
  lemma OuterImportedStep(st0: Store, st: Store, st1: Store, sg: OrderedMap<nat, OrderedMap<string, SeriesGroup>>,
                          sg': OrderedMap<nat, OrderedMap<string, SeriesGroup>>, i: nat,
                          inner': OrderedMap<string, SeriesGroup>)
    requires Ready(st0, sg) && i < |sg.keys|
    requires Grows(st0, st) && Grows(st, st1)
    requires sg'.keys == sg.keys && sg'.entries.Keys == sg.entries.Keys
    requires forall q | 0 <= q < i :: AllImported(st0, st, sg, sg', sg.keys[q])
    requires InnerOutside(st, st1, sg.entries[sg.keys[i]])
    ensures forall q | 0 <= q < i :: AllImported(st0, st1, sg, sg'.Put(sg.keys[i], inner'), sg.keys[q])
  {
    var rid := sg.keys[i];
    forall q | 0 <= q < i
      ensures AllImported(st0, st1, sg, sg'.Put(rid, inner'), sg.keys[q])
    {
      assert sg.keys[q] != rid;
      AllImportedKept(st0, st, st1, sg, sg', sg.keys[q], rid);
    }
  }

  /** The resources after `i` stay untouched while resource `i` is imported. */
  lemma OuterUntouchedStep(st0: Store, st: Store, st1: Store, sg: OrderedMap<nat, OrderedMap<string, SeriesGroup>>,
                           sg': OrderedMap<nat, OrderedMap<string, SeriesGroup>>, i: nat,
                           inner': OrderedMap<string, SeriesGroup>)
    requires Ready(st0, sg) && i < |sg.keys|
    requires Grows(st0, st)
    requires sg'.keys == sg.keys && sg'.entries.Keys == sg.entries.Keys
    requires forall q | i <= q < |sg.keys| ::
      sg'.entries[sg.keys[q]] == sg.entries[sg.keys[q]] && AllUntouched(st0, st, sg.entries[sg.keys[q]])
    requires InnerOutside(st, st1, sg.entries[sg.keys[i]])
    ensures forall q | i + 1 <= q < |sg.keys| ::
      sg'.Put(sg.keys[i], inner').entries[sg.keys[q]] == sg.entries[sg.keys[q]]
      && AllUntouched(st0, st1, sg.entries[sg.keys[q]])
  {
    var rid := sg.keys[i];
    forall q | i < q < |sg.keys|
      ensures sg'.Put(rid, inner').entries[sg.keys[q]] == sg.entries[sg.keys[q]]
      ensures AllUntouched(st0, st1, sg.entries[sg.keys[q]])
    {
      assert sg.keys[q] != rid;
      AllUntouchedKept(st0, st, st1, sg, sg.keys[q], rid);
    }
  }

  /** The resources before `i` stay imported, and those after it stay
      untouched, when the groups of resource `i` are imported. */
  lemma OuterDoneStep(st0: Store, st: Store, st1: Store, sg: OrderedMap<nat, OrderedMap<string, SeriesGroup>>,
                      sg': OrderedMap<nat, OrderedMap<string, SeriesGroup>>, i: nat, fails: seq<Complaint>,
                      inner': OrderedMap<string, SeriesGroup>, f: seq<Complaint>)
    requires Ready(st0, sg) && i < |sg.keys|
    requires OuterDone(st0, st, sg, sg', i, fails)
    requires Grows(st, st1)
    requires inner'.keys == sg.entries[sg.keys[i]].keys
    requires forall s | s in sg.entries[sg.keys[i]].entries ::
      s in inner'.entries && Imported(st, st1, s, sg.entries[sg.keys[i]].entries[s], inner'.entries[s])
    requires InnerOutside(st, st1, sg.entries[sg.keys[i]])
    requires f == InnerFailures(sg.entries[sg.keys[i]], sg.entries[sg.keys[i]].keys, st0.rejects)
    ensures OuterDone(st0, st1, sg, sg'.Put(sg.keys[i], inner'), i + 1, fails + f)
  {
    var rid := sg.keys[i];
    SeriesFailuresStep(sg, i, st0.rejects);
    OuterImportedStep(st0, st, st1, sg, sg', i, inner');
    AllImportedRebase(st0, st, st1, sg, sg'.Put(rid, inner'), rid, inner');
    OuterUntouchedStep(st0, st, st1, sg, sg', i, inner');
    OutsideStep(st0, st, st1, sg, rid);
    GrowsTrans(st0, st, st1);
  }

  /** One more resource of the outer loop. */
  method ImportOuterStep(st0: Store, sg: OrderedMap<nat, OrderedMap<string, SeriesGroup>>, i: nat,
                         st: Store, sg': OrderedMap<nat, OrderedMap<string, SeriesGroup>>, fails: seq<Complaint>)
    returns (st1: Store, sg1: OrderedMap<nat, OrderedMap<string, SeriesGroup>>, fails1: seq<Complaint>)
    requires Ready(st0, sg) && i < |sg.keys|
    requires OuterDone(st0, st, sg, sg', i, fails)
    requires Created(st0, st, sg, sg')
    ensures OuterDone(st0, st1, sg, sg1, i + 1, fails1)
    ensures Created(st0, st1, sg, sg1)
  {
    var rid := sg.keys[i];
    var inner := sg'.entries[rid];
    assert inner == sg.entries[rid] && AllUntouched(st0, st, inner);
    InnerReadyGrows(st0, st, inner);
    var inner', f;
    st1, inner', f := ImportInner(st, inner);
    OuterDoneStep(st0, st, st1, sg, sg', i, fails, inner', f);
    CreatedStep(st0, st, st1, sg, sg', rid, inner');
    sg1 := sg'.Put(rid, inner');
    fails1 := fails + f;
  }

  lemma OuterDoneStart(st: Store, sg: OrderedMap<nat, OrderedMap<string, SeriesGroup>>)
    requires st.Valid() && Ready(st, sg)
    ensures OuterDone(st, st, sg, sg, 0, [])
  {
    assert sg.keys[..0] == [];
    forall q | 0 <= q < |sg.keys|
      ensures AllUntouched(st, st, sg.entries[sg.keys[q]])
    {
      assert InnerReady(st, sg.entries[sg.keys[q]]);
    }
  }

  /** Lines 182-241: the series groups of each resource in turn. Every group
      ends imported as one import alone would import it from the starting
      store — its series extended with the rows no child matched, its
      children carrying the last matching row's barcodes unless the store
      refused them — no other archival object changes, and the only objects
      added are the series of groups whose series was missing. */
  method ImportSeriesGroups(st: Store, sg: OrderedMap<nat, OrderedMap<string, SeriesGroup>>)
    returns (st': Store, sg': OrderedMap<nat, OrderedMap<string, SeriesGroup>>, fails: seq<Complaint>)
    requires st.Valid() && Ready(st, sg)
    ensures Grows(st, st')
    ensures sg'.keys == sg.keys
    ensures forall rid | rid in sg.entries :: rid in sg'.entries && AllImported(st, st', sg, sg', rid)
    ensures Outside(st, st', sg)
    ensures Created(st, st', sg, sg')
    ensures fails == SeriesFailures(sg, sg.keys, st.rejects)
  {
    st', sg', fails := st, sg, [];
    OuterDoneStart(st, sg);
    for i := 0 to |sg.keys|
      invariant OuterDone(st, st', sg, sg', i, fails)
      invariant Created(st, st', sg, sg')
    {
      st', sg', fails := ImportOuterStep(st, sg, i, st', sg', fails);
    }
    assert sg.keys[..|sg.keys|] == sg.keys;
    forall rid | rid in sg.entries
      ensures rid in sg'.entries && AllImported(st, st', sg, sg', rid)
    {
      var q :| 0 <= q < |sg.keys| && sg.keys[q] == rid;
    }
  }

  // ---------------------------------------------------------------------
  // Resource groups

  /** A resource with one new box container per row after its instances. */
  function WithContainers(r: Resource, rows: seq<Row>): Resource
  {
    r.(instances := r.instances + Containers(rows))
  }

  /** The resource model lines 246-247 start from: the cached one when
      pass 1 cached it, otherwise the stored one. */
  function Base(st: Store, cache: map<nat, Resource>, rid: nat): Resource
    requires rid in st.resources
  {
    if rid in cache then cache[rid] else st.resources[rid]
  }

  /** Lines 244-257 for one resource group: the model gets one box
      container per row and is written back in one update; a cached model
      is the object that was changed, so the cache holds the new value. */
  method ImportResourceGroup(st: Store, cache: map<nat, Resource>, rid: nat, g: ResourceGroup)
    returns (st': Store, cache': map<nat, Resource>)
    requires st.Valid() && rid in st.resources
    ensures st'.Valid()
    ensures st' == st.(resources := st'.resources)
    ensures st'.resources.Keys == st.resources.Keys
    ensures st'.resources[rid] == WithContainers(Base(st, cache, rid), g.data)
    ensures forall r | r in st.resources && r != rid :: st'.resources[r] == st.resources[r]
    ensures cache'.Keys == cache.Keys
    ensures rid in cache ==> cache'[rid] == st'.resources[rid]
    ensures forall r | r in cache && r != rid :: cache'[r] == cache[r]
  {
    var r := if rid in cache then cache[rid] else st.resources[rid];
    var instances := AppendContainers(r.instances, g.data);
    r := r.(instances := instances);
    st' := st.(resources := st.resources[rid := r]);
    cache' := cache;
    if rid in cache {
      cache' := cache[rid := r];
    }
  }

  /** The state of the resource-group loop after the first `i` resources. */
  ghost predicate ResourcesDone(st0: Store, cache0: map<nat, Resource>, rg: OrderedMap<nat, ResourceGroup>,
                                i: nat, st: Store, cache: map<nat, Resource>)
    requires rg.Valid() && i <= |rg.keys|
    requires forall rid | rid in rg.entries :: rid in st0.resources
  {
    && st.Valid()
    && st == st0.(resources := st.resources)
    && st.resources.Keys == st0.resources.Keys
    && cache.Keys == cache0.Keys
    && (forall q | 0 <= q < i ::
          && st.resources[rg.keys[q]] == WithContainers(Base(st0, cache0, rg.keys[q]), rg.entries[rg.keys[q]].data)
          && (rg.keys[q] in cache ==> cache[rg.keys[q]] == st.resources[rg.keys[q]]))
    && (forall q | i <= q < |rg.keys| ::
          && st.resources[rg.keys[q]] == st0.resources[rg.keys[q]]
          && (rg.keys[q] in cache0 ==> cache[rg.keys[q]] == cache0[rg.keys[q]]))
    && (forall rid | rid in st0.resources && rid !in rg.entries :: st.resources[rid] == st0.resources[rid])
    && (forall rid | rid in cache0 && rid !in rg.entries :: cache[rid] == cache0[rid])
  }

  /** One more resource group. */
  method ImportResourceStep(st0: Store, cache0: map<nat, Resource>, rg: OrderedMap<nat, ResourceGroup>, i: nat,
                            st: Store, cache: map<nat, Resource>)
    returns (st': Store, cache': map<nat, Resource>)
    requires rg.Valid() && i < |rg.keys|
    requires forall rid | rid in rg.entries :: rid in st0.resources
    requires ResourcesDone(st0, cache0, rg, i, st, cache)
    ensures ResourcesDone(st0, cache0, rg, i + 1, st', cache')
  {
    var rid := rg.keys[i];
    assert Base(st, cache, rid) == Base(st0, cache0, rid);
    st', cache' := ImportResourceGroup(st, cache, rid, rg.entries[rid]);
    assert forall q | 0 <= q < |rg.keys| && q != i :: rg.keys[q] != rid;
    forall q | 0 <= q < i
      ensures st'.resources[rg.keys[q]] == WithContainers(Base(st0, cache0, rg.keys[q]), rg.entries[rg.keys[q]].data)
      ensures rg.keys[q] in cache' ==> cache'[rg.keys[q]] == st'.resources[rg.keys[q]]
    {
      assert rg.keys[q] != rid;
    }
    forall q | i + 1 <= q < |rg.keys|
      ensures st'.resources[rg.keys[q]] == st0.resources[rg.keys[q]]
      ensures rg.keys[q] in cache0 ==> cache'[rg.keys[q]] == cache0[rg.keys[q]]
    {
      assert rg.keys[q] != rid;
    }
    assert st'.Valid() && st' == st0.(resources := st'.resources);
  }

  /** Lines 242-258: each resource group in turn. */
  method ImportResourceGroups(st: Store, cache: map<nat, Resource>, rg: OrderedMap<nat, ResourceGroup>)
    returns (st': Store, cache': map<nat, Resource>)
    requires st.Valid() && rg.Valid()
    requires forall rid | rid in rg.entries :: rid in st.resources
    ensures st'.Valid()
    ensures st' == st.(resources := st'.resources)
    ensures st'.resources.Keys == st.resources.Keys
    ensures forall rid | rid in st.resources ::
      st'.resources[rid] == if rid in rg.entries then WithContainers(Base(st, cache, rid), rg.entries[rid].data)
                            else st.resources[rid]
    ensures cache'.Keys == cache.Keys
    ensures forall rid | rid in cache' :: cache'[rid] == if rid in rg.entries then st'.resources[rid] else cache[rid]
  {
    st', cache' := st, cache;
    for i := 0 to |rg.keys|
      invariant ResourcesDone(st, cache, rg, i, st', cache')
    {
      st', cache' := ImportResourceStep(st, cache, rg, i, st', cache');
    }
    forall rid | rid in rg.entries
      ensures st'.resources[rid] == WithContainers(Base(st, cache, rid), rg.entries[rid].data)
      ensures rid in cache' ==> cache'[rid] == st'.resources[rid]
    {
      var q :| 0 <= q < |rg.keys| && rg.keys[q] == rid;
    }
  }

  // ---------------------------------------------------------------------
  // The hook

  /** What pass 1 knows of the group (`rid`, `s`): a found series is a
      top-level object of the resource whose component id carries the
      label, and each child is a stored object whose parent is that
      series. */
  lemma ExpectedGroupFacts(st: Store, rid: nat, s: string, data: seq<Row>)
    requires st.Valid() && rid in st.resources
    ensures var g := ExpectedGroup(st, rid, s, data);
      && g.existing == g.id.Some?
      && (g.id.Some? ==> g.id.value in st.objects && IsSeriesFor(st.objects[g.id.value], st.resources[rid].repo, rid, s))
      && forall id | IsChildId(g.children, id) :: g.id.Some? && id in st.objects && st.objects[id].parent == g.id
  {
    var repo := st.resources[rid].repo;
    SeriesLookupFound(st.objects, st.objectOrder, repo, rid, s);
    var g := ExpectedGroup(st, rid, s, data);
    forall id | IsChildId(g.children, id)
      ensures g.id.Some? && id in st.objects && st.objects[id].parent == g.id
    {
      var j :| 0 <= j < |g.children| && g.children[j].id == id;
      var ids := FindChildren(st, g.id.value, repo, rid);
      assert g.children[j] == Child(ids[j], st.objects[ids[j]]);
      assert IsChildOf(st.objects[ids[j]], g.id.value, repo, rid);
    }
  }

  /** Groups of different resources or labels share no archival object: a
      series carries its resource and its label, and a child has one
      parent, which is not a series of another group. */
  lemma ExpectedGroupsSeparate(st: Store, r1: nat, s1: string, d1: seq<Row>, r2: nat, s2: string, d2: seq<Row>)
    requires st.Valid() && r1 in st.resources && r2 in st.resources && (r1 != r2 || s1 != s2)
    ensures Separate(ExpectedGroup(st, r1, s1, d1), ExpectedGroup(st, r2, s2, d2))
  {
    ExpectedGroupFacts(st, r1, s1, d1);
    ExpectedGroupFacts(st, r2, s2, d2);
  }

  /** The groups pass 1 builds are valid. */
  lemma GroupedAreValid(st: Store, index: map<string, ResourceRef>, rows: seq<Row>,
                        sg: OrderedMap<nat, OrderedMap<string, SeriesGroup>>)
    requires st.Valid() && SeriesGrouped(st, index, rows, sg)
    ensures forall rid, s | rid in sg.entries && s in sg.entries[rid].entries :: GroupValid(st, sg.entries[rid].entries[s])
  {
    forall rid, s | rid in sg.entries && s in sg.entries[rid].entries
      ensures GroupValid(st, sg.entries[rid].entries[s])
    {
      assert InnerGrouped(st, index, rows, rid, sg.entries[rid]);
      ExpectedGroupValid(st, rid, s, SeriesRows(rows, index, rid, s));
    }
  }

  /** Two groups pass 1 builds under different keys are separate. */
  lemma GroupedAreSeparate(st: Store, index: map<string, ResourceRef>, rows: seq<Row>,
                           sg: OrderedMap<nat, OrderedMap<string, SeriesGroup>>, r1: nat, r2: nat)
    requires st.Valid() && SeriesGrouped(st, index, rows, sg) && r1 in sg.entries && r2 in sg.entries
    ensures forall s1, s2 | s1 in sg.entries[r1].entries && s2 in sg.entries[r2].entries && (r1 != r2 || s1 != s2) ::
      Separate(sg.entries[r1].entries[s1], sg.entries[r2].entries[s2])
  {
    assert InnerGrouped(st, index, rows, r1, sg.entries[r1]);
    assert InnerGrouped(st, index, rows, r2, sg.entries[r2]);
    forall s1, s2 | s1 in sg.entries[r1].entries && s2 in sg.entries[r2].entries && (r1 != r2 || s1 != s2)
      ensures Separate(sg.entries[r1].entries[s1], sg.entries[r2].entries[s2])
    {
      ExpectedGroupsSeparate(st, r1, s1, SeriesRows(rows, index, r1, s1), r2, s2, SeriesRows(rows, index, r2, s2));
    }
  }

  /** Pass 1 hands pass 2 groups it can import: each is valid, and no two
      share a series or a child. */
  lemma GroupedIsReady(st: Store, index: map<string, ResourceRef>, rows: seq<Row>,
                       sg: OrderedMap<nat, OrderedMap<string, SeriesGroup>>)
    requires st.Valid() && SeriesGrouped(st, index, rows, sg)
    ensures Ready(st, sg)
  {
    GroupedAreValid(st, index, rows, sg);
    forall r1, r2 | r1 in sg.entries && r2 in sg.entries
      ensures r1 != r2 ==> InnersSeparate(sg.entries[r1], sg.entries[r2])
      ensures r1 == r2 ==> InnerReady(st, sg.entries[r1])
    {
      assert InnerGrouped(st, index, rows, r1, sg.entries[r1]);
      GroupedAreSeparate(st, index, rows, sg, r1, r2);
    }
  }

  /** A resource no unlabelled row names keeps its instances. */
  lemma UntouchedResource(st: Store, index: map<string, ResourceRef>, rows: seq<Row>,
                          rg: OrderedMap<nat, ResourceGroup>, rid: nat)
    requires ResourceGrouped(st, index, rows, rg) && rid in st.resources && rid !in rg.entries
    ensures WithContainers(st.resources[rid], ResourceRows(rows, index, rid)) == st.resources[rid]
  {
    InDedup(ResourceTargets(rows, index), rid);
    ResourceRowsNeedTarget(rows, index, rid);
    assert Containers([]) == [];
    assert st.resources[rid].instances + [] == st.resources[rid].instances;
  }

  /** Some accepted CSV row gives resource `rid` the series label `s`. */
  ghost predicate Labelled(st: Store, rows: seq<Row>, rid: nat, s: string)
    requires st.Valid()
  {
    rid in st.resources && s in SeriesLabels(rows, IndexOf(st.resources, st.resourceOrder), rid)
  }

  /** The series group pass 1 builds for resource `rid` and label `s`. */
  ghost function GroupOf(st: Store, rows: seq<Row>, rid: nat, s: string): SeriesGroup
    requires st.Valid() && rid in st.resources
  {
    ExpectedGroup(st, rid, s, SeriesRows(rows, IndexOf(st.resources, st.resourceOrder), rid, s))
  }

  /** A label of a resource names a resource with series rows. */
  lemma LabelledIsTarget(rows: seq<Row>, index: map<string, ResourceRef>, rid: nat, s: string)
    requires s in SeriesLabels(rows, index, rid)
    ensures rid in SeriesTargets(rows, index)
  {
    if rid !in SeriesTargets(rows, index) {
      LabelsNeedTarget(rows, index, rid);
    }
  }

  /** The groups of `series_groups` are exactly the labelled ones, each as
      pass 1 builds it. */
  lemma LabelGrouped(st: Store, rows: seq<Row>, sg: OrderedMap<nat, OrderedMap<string, SeriesGroup>>, rid: nat, s: string)
    requires st.Valid() && SeriesGrouped(st, IndexOf(st.resources, st.resourceOrder), rows, sg)
    ensures Labelled(st, rows, rid, s) <==> rid in sg.entries && s in sg.entries[rid].entries
    ensures Labelled(st, rows, rid, s) ==> sg.entries[rid].entries[s] == GroupOf(st, rows, rid, s)
  {
    var index := IndexOf(st.resources, st.resourceOrder);
    if rid in sg.entries {
      assert InnerGrouped(st, index, rows, rid, sg.entries[rid]);
      InDedup(SeriesLabels(rows, index, rid), s);
    } else if Labelled(st, rows, rid, s) {
      LabelledIsTarget(rows, index, rid, s);
      InDedup(SeriesTargets(rows, index), rid);
    }
  }

  /** What pass 2 leaves of the labelled groups, in the terms of the CSV
      rows: each is imported, and every other archival object is as it
      was. */
  lemma LabelledImported(st: Store, st1: Store, st': Store, rows: seq<Row>,
                         sg: OrderedMap<nat, OrderedMap<string, SeriesGroup>>,
                         sg': OrderedMap<nat, OrderedMap<string, SeriesGroup>>)
    requires st.Valid() && SeriesGrouped(st, IndexOf(st.resources, st.resourceOrder), rows, sg)
    requires forall rid | rid in sg.entries :: rid in sg'.entries && AllImported(st, st1, sg, sg', rid)
    requires Outside(st, st1, sg)
    requires st'.objects == st1.objects
    ensures forall rid, s | Labelled(st, rows, rid, s) :: exists sid :: SeriesImported(st, st', s, GroupOf(st, rows, rid, s), sid)
    ensures forall id | id in st.objects ::
      && id in st'.objects
      && (|| st'.objects[id] == st.objects[id]
          || exists rid, s | Labelled(st, rows, rid, s) :: InFootprint(GroupOf(st, rows, rid, s), id))
  {
    forall rid, s | Labelled(st, rows, rid, s)
      ensures exists sid :: SeriesImported(st, st', s, GroupOf(st, rows, rid, s), sid)
    {
      LabelGrouped(st, rows, sg, rid, s);
      assert AllImported(st, st1, sg, sg', rid);
      var sid := sg'.entries[rid].entries[s].id.value;
      assert SeriesImported(st, st1, s, GroupOf(st, rows, rid, s), sid);
      assert SeriesImported(st, st', s, GroupOf(st, rows, rid, s), sid);
    }
    forall id | id in st.objects && st'.objects[id] != st.objects[id]
      ensures exists rid, s | Labelled(st, rows, rid, s) :: InFootprint(GroupOf(st, rows, rid, s), id)
    {
      var rid, s :| rid in sg.entries && s in sg.entries[rid].entries && InFootprint(sg.entries[rid].entries[s], id);
      LabelGrouped(st, rows, sg, rid, s);
    }
  }

  /** The ids pass 2 recorded in `sg'` for the groups of `sg` whose series
      was missing, by resource and label. */
  ghost function CreatedSeries(sg: OrderedMap<nat, OrderedMap<string, SeriesGroup>>,
                               sg': OrderedMap<nat, OrderedMap<string, SeriesGroup>>): map<(nat, string), nat>
  {
    map rid, s | && rid in sg.entries && s in sg.entries[rid].entries && !sg.entries[rid].entries[s].existing
                 && rid in sg'.entries && s in sg'.entries[rid].entries && sg'.entries[rid].entries[s].id.Some?
      :: (rid, s) := sg'.entries[rid].entries[s].id.value
  }

  /** A recorded id of a group whose series was missing is an object the
      series loop added. */
  lemma CreatedIdIsNew(st: Store, st1: Store, sg: OrderedMap<nat, OrderedMap<string, SeriesGroup>>,
                       sg': OrderedMap<nat, OrderedMap<string, SeriesGroup>>, rid: nat, s: string)
    requires st.Valid()
    requires rid in sg.entries && rid in sg'.entries && AllImported(st, st1, sg, sg', rid)
    requires s in sg.entries[rid].entries && !sg.entries[rid].entries[s].existing
    ensures s in sg'.entries[rid].entries && sg'.entries[rid].entries[s].id.Some?
    ensures sg'.entries[rid].entries[s].id.value in st1.objects
    ensures sg'.entries[rid].entries[s].id.value !in st.objects
  {
    assert Imported(st, st1, s, sg.entries[rid].entries[s], sg'.entries[rid].entries[s]);
  }

  /** Every object the series loop added is a recorded id of a group
      whose series was missing. */
  lemma CreatedIdsCover(st: Store, st1: Store, sg: OrderedMap<nat, OrderedMap<string, SeriesGroup>>,
                        sg': OrderedMap<nat, OrderedMap<string, SeriesGroup>>, created: map<(nat, string), nat>)
    requires Created(st, st1, sg, sg')
    requires created == CreatedSeries(sg, sg')
    ensures forall id | id in st1.objects && id !in st.objects :: id in created.Values
  {
    forall id | id in st1.objects && id !in st.objects
      ensures id in created.Values
    {
      var rid, s :| rid in sg.entries && s in sg.entries[rid].entries
        && !sg.entries[rid].entries[s].existing
        && rid in sg'.entries && s in sg'.entries[rid].entries
        && sg'.entries[rid].entries[s].id == Some(id);
      assert (rid, s) in created && created[(rid, s)] == id;
    }
  }

  /** Every recorded id of a group whose series was missing is an object
      the series loop added. */
  lemma CreatedIdsFresh(st: Store, st1: Store, sg: OrderedMap<nat, OrderedMap<string, SeriesGroup>>,
                        sg': OrderedMap<nat, OrderedMap<string, SeriesGroup>>, created: map<(nat, string), nat>)
    requires st.Valid()
    requires forall rid | rid in sg.entries :: rid in sg'.entries && AllImported(st, st1, sg, sg', rid)
    requires created == CreatedSeries(sg, sg')
    ensures forall v | v in created.Values :: v in st1.objects && v !in st.objects
  {
    forall v | v in created.Values
      ensures v in st1.objects && v !in st.objects
    {
      var k :| k in created && created[k] == v;
      CreatedIdIsNew(st, st1, sg, sg', k.0, k.1);
    }
  }

  /** The objects pass 2's series loop adds are exactly the recorded ids of
      the groups whose series was missing. */
  lemma CreatedIds(st: Store, st1: Store, sg: OrderedMap<nat, OrderedMap<string, SeriesGroup>>,
                   sg': OrderedMap<nat, OrderedMap<string, SeriesGroup>>, created: map<(nat, string), nat>)
    requires st.Valid()
    requires forall rid | rid in sg.entries :: rid in sg'.entries && AllImported(st, st1, sg, sg', rid)
    requires Created(st, st1, sg, sg')
    requires created == CreatedSeries(sg, sg')
    ensures st1.objects.Keys - st.objects.Keys == created.Values
  {
    CreatedIdsCover(st, st1, sg, sg', created);
    CreatedIdsFresh(st, st1, sg, sg', created);
  }

  /** A group whose series was missing has a recorded id, the series
      imported for it. */
  lemma GroupCreated(st: Store, st1: Store, sg: OrderedMap<nat, OrderedMap<string, SeriesGroup>>,
                     sg': OrderedMap<nat, OrderedMap<string, SeriesGroup>>,
                     created: map<(nat, string), nat>, rid: nat, s: string)
    requires rid in sg.entries && rid in sg'.entries && AllImported(st, st1, sg, sg', rid)
    requires s in sg.entries[rid].entries && !sg.entries[rid].entries[s].existing
    requires created == CreatedSeries(sg, sg')
    ensures (rid, s) in created && SeriesImported(st, st1, s, sg.entries[rid].entries[s], created[(rid, s)])
  {
    assert Imported(st, st1, s, sg.entries[rid].entries[s], sg'.entries[rid].entries[s]);
  }

  /** A labelled group whose series was missing has a recorded id, and
      the object under it carries the group's import. */
  lemma LabelledGroupCreated(st: Store, st1: Store, st': Store, rows: seq<Row>,
                             sg: OrderedMap<nat, OrderedMap<string, SeriesGroup>>,
                             sg': OrderedMap<nat, OrderedMap<string, SeriesGroup>>,
                             created: map<(nat, string), nat>, rid: nat, s: string)
    requires st.Valid() && SeriesGrouped(st, IndexOf(st.resources, st.resourceOrder), rows, sg)
    requires Labelled(st, rows, rid, s) && !GroupOf(st, rows, rid, s).existing
    requires rid in sg.entries ==> rid in sg'.entries && AllImported(st, st1, sg, sg', rid)
    requires st'.objects == st1.objects
    requires created == CreatedSeries(sg, sg')
    ensures (rid, s) in created && SeriesImported(st, st', s, GroupOf(st, rows, rid, s), created[(rid, s)])
  {
    LabelGrouped(st, rows, sg, rid, s);
    GroupCreated(st, st1, sg, sg', created, rid, s);
  }

  /** Pass 2 creates one series per labelled group whose series was
      missing, and nothing else: `created` maps each such group to its new
      series, which carries the group's import, and the objects added are
      exactly its ids. */
  lemma LabelledCreated(st: Store, st1: Store, st': Store, rows: seq<Row>,
                        sg: OrderedMap<nat, OrderedMap<string, SeriesGroup>>,
                        sg': OrderedMap<nat, OrderedMap<string, SeriesGroup>>,
                        created: map<(nat, string), nat>)
    requires st.Valid() && SeriesGrouped(st, IndexOf(st.resources, st.resourceOrder), rows, sg)
    requires forall rid | rid in sg.entries :: rid in sg'.entries && AllImported(st, st1, sg, sg', rid)
    requires Created(st, st1, sg, sg')
    requires st'.objects == st1.objects
    requires created == CreatedSeries(sg, sg')
    ensures forall rid: nat, s: string | Labelled(st, rows, rid, s) && !GroupOf(st, rows, rid, s).existing ::
      (rid, s) in created && SeriesImported(st, st', s, GroupOf(st, rows, rid, s), created[(rid, s)])
    ensures forall k | k in created :: Labelled(st, rows, k.0, k.1) && !GroupOf(st, rows, k.0, k.1).existing
    ensures st'.objects.Keys - st.objects.Keys == created.Values
  {
    forall rid: nat, s: string | Labelled(st, rows, rid, s) && !GroupOf(st, rows, rid, s).existing
      ensures (rid, s) in created && SeriesImported(st, st', s, GroupOf(st, rows, rid, s), created[(rid, s)])
    {
      LabelledGroupCreated(st, st1, st', rows, sg, sg', created, rid, s);
    }
    forall k | k in created
      ensures Labelled(st, rows, k.0, k.1) && !GroupOf(st, rows, k.0, k.1).existing
    {
      LabelGrouped(st, rows, sg, k.0, k.1);
    }
    CreatedIds(st, st1, sg, sg', created);
  }

  /** No two groups share a created series: the series carries its group's
      label in its component id and its resource as its root. */
  lemma CreatedDistinct(st: Store, st': Store, rows: seq<Row>, created: map<(nat, string), nat>)
    requires st.Valid()
    requires forall rid: nat, s: string | Labelled(st, rows, rid, s) && !GroupOf(st, rows, rid, s).existing ::
      (rid, s) in created && SeriesImported(st, st', s, GroupOf(st, rows, rid, s), created[(rid, s)])
    requires forall k | k in created :: Labelled(st, rows, k.0, k.1) && !GroupOf(st, rows, k.0, k.1).existing
    ensures forall k1, k2 | k1 in created && k2 in created && k1 != k2 :: created[k1] != created[k2]
  {
    forall k1, k2 | k1 in created && k2 in created && created[k1] == created[k2]
      ensures k1 == k2
    {
      var g1, g2 := GroupOf(st, rows, k1.0, k1.1), GroupOf(st, rows, k2.0, k2.1);
      assert SeriesImported(st, st', k1.1, g1, created[k1]);
      assert SeriesImported(st, st', k2.1, g2, created[k2]);
      var o := st'.objects[created[k1]];
      assert o.root == k1.0 && o.root == k2.0;
      assert o.componentId == Some("Series " + k1.1 + ".") == Some("Series " + k2.1 + ".");
      SeriesWordInjective(k1.1, k2.1);
    }
  }

  /** Pass 1 (the loaded hook, lines 97-181) followed by pass 2 (lines
      183-260): the CSV rows are grouped, the series groups imported, then
      the resource groups. Afterwards the store is consistent; every
      labelled series group is imported — its series, found or created,
      carries the group's rows no child matched as new box containers, and
      each child carries the last matching row's barcodes unless the store
      refused its update; no other archival object changed; `created`
      gives each labelled group whose series was missing its own new
      series, and those are the only new objects; every resource
      carries one new box container per unlabelled row that named it, in
      CSV order; and the complaints begin with the skipped rows'. */
  method RunImport(st: Store, rows: seq<Row>) returns (st': Store, complaints: seq<Complaint>, ghost created: map<(nat, string), nat>)
    requires st.Valid()
    ensures st'.Valid()
    ensures st'.resources.Keys == st.resources.Keys && st'.resourceOrder == st.resourceOrder
    ensures forall rid, s | Labelled(st, rows, rid, s) :: exists sid :: SeriesImported(st, st', s, GroupOf(st, rows, rid, s), sid)
    ensures forall id | id in st.objects ::
      && id in st'.objects
      && (|| st'.objects[id] == st.objects[id]
          || exists rid, s | Labelled(st, rows, rid, s) :: InFootprint(GroupOf(st, rows, rid, s), id))
    ensures forall rid: nat, s: string | Labelled(st, rows, rid, s) && !GroupOf(st, rows, rid, s).existing ::
      (rid, s) in created && SeriesImported(st, st', s, GroupOf(st, rows, rid, s), created[(rid, s)])
    ensures forall k | k in created :: Labelled(st, rows, k.0, k.1) && !GroupOf(st, rows, k.0, k.1).existing
    ensures st'.objects.Keys - st.objects.Keys == created.Values
    ensures forall k1, k2 | k1 in created && k2 in created && k1 != k2 :: created[k1] != created[k2]
    ensures forall rid | rid in st.resources ::
      st'.resources[rid] == WithContainers(st.resources[rid], ResourceRows(rows, IndexOf(st.resources, st.resourceOrder), rid))
    ensures SkipComplaints(rows, IndexOf(st.resources, st.resourceOrder)) <= complaints
  {
    var index, sg, rg, cache, skipped := GroupRows(st, rows);
    GroupedIsReady(st, index, rows, sg);
    var st1, sg', seriesFails := ImportSeriesGroups(st, sg);
    var cache';
    st', cache' := ImportResourceGroups(st1, cache, rg);
    complaints := skipped + seriesFails;
    LabelledImported(st, st1, st', rows, sg, sg');
    created := CreatedSeries(sg, sg');
    LabelledCreated(st, st1, st', rows, sg, sg', created);
    CreatedDistinct(st, st', rows, created);
    forall rid | rid in st.resources
      ensures st'.resources[rid] == WithContainers(st.resources[rid], ResourceRows(rows, index, rid))
    {
      if rid !in rg.entries {
        UntouchedResource(st, index, rows, rg, rid);
      }
    }
  }
}
