/** The JSON models the import reads and writes, the CSV row, and the two
    payload builders `build_container` and `build_series`. */
module Records {
  import opened Options
  import opened Identifiers

  /** A container of an instance: `type_1`, `indicator_1`, `barcode_1` and
      `container_locations` (location references). */
  datatype Container = Container(
    type1: string,
    indicator1: Option<string>,
    barcode1: Option<string>,
    locations: seq<string>)

  /** An instance; only some instances carry a `container` key. */
  datatype Instance = Instance(instanceType: string, container: Option<Container>)

  /** An archival object: its hierarchy columns (`parent_id`,
      `root_record_id`, `repo_id`), `component_id`, `level`, `title` and its
      ordered instances. The store keys it by its id. */
  datatype ArchivalObject = ArchivalObject(
    parent: Option<nat>,
    root: nat,
    repo: nat,
    componentId: Option<string>,
    level: string,
    title: Option<string>,
    instances: seq<Instance>)

  /** A resource: its repository, the parts of its JSON `identifier` column,
      its `uri` and its ordered instances. The store keys it by its id. */
  datatype Resource = Resource(
    repo: nat,
    identifier: seq<Option<string>>,
    uri: string,
    instances: seq<Instance>)

  /** One CSV row as `row.to_hash`; a missing cell is None. */
  datatype Row = Row(
    resource: Option<string>,
    series: Option<string>,
    box: Option<string>,
    barcode: Option<string>,
    location: Option<string>,
    coordinate: Option<string>)

  /** The hash `build_series` returns. */
  datatype SeriesPayload = SeriesPayload(
    componentId: string,
    level: string,
    resourceRef: string,
    title: string)

  /** `build_container(box, barcode)`: a mixed-materials box with the given
      indicator and barcode and no locations, so a later row with the same
      box matches it and no other row does. */
  function BuildContainer(box: Option<string>, barcode: Option<string>): (r: Instance)
    ensures r.instanceType == "mixed_materials"
    ensures r.container.Some? && r.container.value.indicator1 == box
    ensures r.container.value.barcode1 == barcode && r.container.value.locations == []
    ensures forall b :: MatchesBox(r, b) <==> b == box
  {
    Instance("mixed_materials", Some(Container("box", box, barcode, [])))
  }

  /** `build_series(series, resource_uri)`: a series created for a label made
      of digits is found again by that label. */
  function BuildSeries(series: string, resourceUri: string): (r: SeriesPayload)
    ensures r.componentId == "Series " + series + "."
    ensures r.level == "series" && r.resourceRef == resourceUri
    ensures r.title == "ContainerImport " + series
    ensures series != [] && AllDigits(series) ==> FirstDigitRun(r.componentId) == Some(series)
  {
    SeriesWordKeepsLabel(series);
    SeriesPayload("Series " + series + ".", "series", resourceUri, "ContainerImport " + series)
  }

  /** Different labels give different component ids, so no two created
      series are the same object value. */
  lemma SeriesWordInjective(a: string, b: string)
    ensures "Series " + a + "." == "Series " + b + "." <==> a == b
  {
    if "Series " + a + "." == "Series " + b + "." {
      var x := "Series " + a + ".";
      assert a == x[7..|x| - 1];
      assert b == x[7..|x| - 1];
    }
  }

  /** The test of line 209: the instance has a container of type "box"
      whose indicator equals the row's box. */
  predicate MatchesBox(i: Instance, box: Option<string>)
  {
    i.container.Some? && i.container.value.type1 == "box" && i.container.value.indicator1 == box
  }

  /** One container instance per row, in row order. */
  function Containers(rows: seq<Row>): (r: seq<Instance>)
  {
    if rows == [] then []
    else Containers(rows[..|rows| - 1]) + [BuildContainer(rows[|rows| - 1].box, rows[|rows| - 1].barcode)]
  }

  /** The loops of lines 229-235 and 249-255: push one built container per
      row onto an instance list. */
  method AppendContainers(instances: seq<Instance>, rows: seq<Row>) returns (r: seq<Instance>)
    ensures r == instances + Containers(rows)
  {
    r := instances;
    for k := 0 to |rows|
      invariant r == instances + Containers(rows[..k])
    {
      assert rows[..k + 1][..k] == rows[..k];
      r := r + [BuildContainer(rows[k].box, rows[k].barcode)];
    }
    assert rows[..|rows|] == rows;
  }

  // ---------------------------------------------------------------------

  /** The k-th container of `Containers(rows)` is built from the k-th row. */
  lemma {:induction false} ContainersAt(rows: seq<Row>, k: nat)
    requires k < |rows|
    ensures |Containers(rows)| == |rows|
    ensures Containers(rows)[k] == BuildContainer(rows[k].box, rows[k].barcode)
  {
    if k < |rows| - 1 {
      ContainersAt(rows[..|rows| - 1], k);
    } else if k > 0 {
      ContainersAt(rows[..|rows| - 1], 0);
    } else {
      assert |Containers(rows[..0])| == 0;
    }
  }

  /** The first digit run of "Series <label>." is the label, for a label
      made of digits: "Series 04." carries "04". */
  lemma SeriesWordKeepsLabel(series: string)
    ensures series != [] && AllDigits(series) ==>
      FirstDigitRun("Series " + series + ".") == Some(series)
  {
    if series != [] && AllDigits(series) {
      var cid := "Series " + series + ".";
      var n := |"Series "|;
      assert cid[..n] == "Series ";
      assert NoDigits(cid[..n]);
      assert cid[n..] == series + ".";
      FirstDigitRunIsLeftmost(cid, n);
      var p := DigitPrefix(series + ".");
      assert (series + ".")[|series|] == '.';
      assert p == series;
    }
  }
}
