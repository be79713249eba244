/** The values kept in `series_groups` and `resource_groups`. */
module Groups {
  import opened Options
  import opened Records
  import opened Store

  /** A pair of `group[:children]`: a child's id (standing for its record)
      and its JSON model as fetched. */
  datatype Child = Child(id: nat, obj: ArchivalObject)

  /** `series_groups[resource_id][series]`: the series id once known, the
      repository, resource id and uri, the rows, whether the series was
      found in the store, and the fetched children of the found series. */
  datatype SeriesGroup = SeriesGroup(
    id: Option<nat>,
    repoId: nat,
    resourceId: nat,
    resourceUri: string,
    data: seq<Row>,
    existing: bool,
    children: seq<Child>)

  /** `resource_groups[resource_id]`. */
  datatype ResourceGroup = ResourceGroup(repoId: nat, data: seq<Row>)

  predicate ChildIdsDistinct(children: seq<Child>)
  {
    forall i, j | 0 <= i < j < |children| :: children[i].id != children[j].id
  }

  predicate IsChildId(children: seq<Child>, id: nat)
  {
    exists j | 0 <= j < |children| :: children[j].id == id
  }

  /** The archival objects importing the group may write: its series and
      its children. */
  predicate InFootprint(g: SeriesGroup, id: nat)
  {
    g.id == Some(id) || IsChildId(g.children, id)
  }

  /** No archival object is the series or a child of both groups. */
  ghost predicate Separate(g1: SeriesGroup, g2: SeriesGroup)
  {
    forall id | InFootprint(g1, id) :: !InFootprint(g2, id)
  }

  /** What pass 1 leaves in a series group, relative to the store: a group
      has an id exactly when its series exists, an existing series is in
      the store, and the children are distinct archival objects of the
      store, children of that series. */
  ghost predicate GroupValid(st: Store, g: SeriesGroup)
  {
    && g.existing == g.id.Some?
    && (g.existing ==> g.id.value in st.objects)
    && (!g.existing ==> g.children == [])
    && ChildIdsDistinct(g.children)
    && forall j | 0 <= j < |g.children| ::
         && g.children[j].id in st.objects
         && g.children[j].obj.parent == g.id
         && g.children[j].id != g.id.value
  }
}
