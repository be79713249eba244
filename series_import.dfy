/** Pass 2 for one series group (lines 186-238): create a missing series,
    overwrite the barcode of every child box container whose indicator is a
    row's box, drop the matched rows, and add the rest as new containers on
    the series in one update. */
module SeriesImport {
  import opened Options
  import opened Records
  import opened Store
  import opened Rows
  import opened Groups

  /** Line 210 for one instance: a matching box container takes the row's
      barcode; any other instance is left alone. */
  function SetBarcode(i: Instance, row: Row): Instance
  {
    if MatchesBox(i, row.box) then i.(container := Some(i.container.value.(barcode1 := row.barcode))) else i
  }

  /** One row applied to every instance of a child. */
  function ApplyRow(insts: seq<Instance>, row: Row): (r: seq<Instance>)
    ensures |r| == |insts|
    ensures forall k | 0 <= k < |r| :: r[k] == SetBarcode(insts[k], row)
  {
    seq(|insts|, k requires 0 <= k < |insts| => SetBarcode(insts[k], row))
  }

  /** The rows applied one after the other, in order. */
  function ApplyRows(insts: seq<Instance>, rows: seq<Row>): seq<Instance>
  {
    if rows == [] then insts else ApplyRow(ApplyRows(insts, rows[..|rows| - 1]), rows[|rows| - 1])
  }

  predicate HasBox(insts: seq<Instance>, box: Option<string>)
  {
    exists k | 0 <= k < |insts| :: MatchesBox(insts[k], box)
  }

  /** Some child has a container for this box. */
  predicate BoxMatched(children: seq<Child>, box: Option<string>)
  {
    exists j | 0 <= j < |children| :: HasBox(children[j].obj.instances, box)
  }

  /** Some row matches an instance of the child, so the child is written. */
  predicate Touched(insts: seq<Instance>, rows: seq<Row>)
  {
    exists k | 0 <= k < |rows| :: HasBox(insts, rows[k].box)
  }

  function UpdatedChild(c: Child, rows: seq<Row>): Child
  {
    c.(obj := c.obj.(instances := ApplyRows(c.obj.instances, rows)))
  }

  /** The rows no child container matched, in their order. */
  function Remaining(rows: seq<Row>, children: seq<Child>): seq<Row>
  {
    if rows == [] then []
    else
      var init := Remaining(rows[..|rows| - 1], children);
      if BoxMatched(children, rows[|rows| - 1].box) then init else init + [rows[|rows| - 1]]
  }

  /** Ruby's `Array#delete(d)`: every element equal to `d` removed. */
  function Delete(rows: seq<Row>, d: Row): (r: seq<Row>)
    ensures |r| <= |rows|
    ensures forall k | 0 <= k < |r| :: r[k] != d && r[k] in rows
    ensures forall k | 0 <= k < |rows| :: rows[k] != d ==> rows[k] in r
    ensures |rows| == 1 ==> r == if rows[0] == d then [] else rows
  {
    if rows == [] then []
    else
      var init := Delete(rows[..|rows| - 1], d);
      assert forall k | 0 <= k < |rows| - 1 :: rows[k] == rows[..|rows| - 1][k];
      if rows[|rows| - 1] == d then init else init + [rows[|rows| - 1]]
  }

  /** `Array#delete` works element by element: it keeps the order and the
      copies of every element it does not remove. */
  lemma {:induction false} DeleteAppend(x: seq<Row>, y: seq<Row>, d: Row)
    ensures Delete(x + y, d) == Delete(x, d) + Delete(y, d)
    decreases |y|
  {
    if y == [] {
      assert x + y == x;
    } else {
      var y' := y[..|y| - 1];
      assert (x + y)[..|x + y| - 1] == x + y';
      assert (x + y)[|x + y| - 1] == y[|y| - 1];
      DeleteAppend(x, y', d);
    }
  }

  /** The rows equal to none of `ms`. */
  function Without(rows: seq<Row>, ms: seq<Row>): seq<Row>
  {
    if rows == [] then []
    else
      var init := Without(rows[..|rows| - 1], ms);
      if rows[|rows| - 1] in ms then init else init + [rows[|rows| - 1]]
  }

  /** One complaint per matching instance of a child whose update fails. */
  function InstanceFailures(id: nat, insts: seq<Instance>, row: Row): seq<Complaint>
  {
    if insts == [] then []
    else
      InstanceFailures(id, insts[..|insts| - 1], row)
        + (if MatchesBox(insts[|insts| - 1], row.box) then [UpdateFailed(id, row.box, row.barcode)] else [])
  }

  /** The complaints of one row, child by child. */
  function ChildFailures(children: seq<Child>, row: Row, rejects: set<nat>): seq<Complaint>
  {
    if children == [] then []
    else
      var c := children[|children| - 1];
      ChildFailures(children[..|children| - 1], row, rejects)
        + (if c.id in rejects then InstanceFailures(c.id, c.obj.instances, row) else [])
  }

  /** The complaints of all rows, row by row. */
  function FailedUpdates(rows: seq<Row>, children: seq<Child>, rejects: set<nat>): seq<Complaint>
  {
    if rows == [] then []
    else FailedUpdates(rows[..|rows| - 1], children, rejects) + ChildFailures(children, rows[|rows| - 1], rejects)
  }

  // ---------------------------------------------------------------------
  // Facts about the specification

  /** Setting a barcode never changes which box an instance matches. */
  lemma {:induction false} ApplyRowsKeepsMatching(insts: seq<Instance>, rows: seq<Row>)
    ensures |ApplyRows(insts, rows)| == |insts|
    ensures forall k, box | 0 <= k < |insts| :: MatchesBox(ApplyRows(insts, rows)[k], box) == MatchesBox(insts[k], box)
  {
    if rows != [] {
      ApplyRowsKeepsMatching(insts, rows[..|rows| - 1]);
    }
  }

  lemma {:induction false} InstanceFailuresByMatching(id: nat, a: seq<Instance>, b: seq<Instance>, row: Row)
    requires |a| == |b|
    requires forall k | 0 <= k < |a| :: MatchesBox(a[k], row.box) == MatchesBox(b[k], row.box)
    ensures InstanceFailures(id, a, row) == InstanceFailures(id, b, row)
  {
    if a != [] {
      InstanceFailuresByMatching(id, a[..|a| - 1], b[..|b| - 1], row);
    }
  }

  /** The last row whose box matches the instance, if any. */
  function LastMatchingRow(rows: seq<Row>, i: Instance): (r: Option<Row>)
    ensures r.Some? ==> MatchesBox(i, r.value.box) && r.value in rows
    ensures r.None? <==> forall k | 0 <= k < |rows| :: !MatchesBox(i, rows[k].box)
    ensures r.Some? ==>
      exists k | 0 <= k < |rows| ::
        rows[k] == r.value && forall k' | k < k' < |rows| :: !MatchesBox(i, rows[k'].box)
  {
    if rows == [] then None
    else if MatchesBox(i, rows[|rows| - 1].box) then Some(rows[|rows| - 1])
    else LastMatchingRow(rows[..|rows| - 1], i)
  }

  /** After all rows, an instance carries the barcode of the LAST row whose
      box it matches; an instance no row matches is unchanged. */
  lemma {:induction false} LastRowWins(insts: seq<Instance>, rows: seq<Row>, k: nat)
    requires k < |insts|
    ensures |ApplyRows(insts, rows)| == |insts|
    ensures ApplyRows(insts, rows)[k] ==
      match LastMatchingRow(rows, insts[k])
      case None => insts[k]
      case Some(r) => insts[k].(container := Some(insts[k].container.value.(barcode1 := r.barcode)))
  {
    ApplyRowsKeepsMatching(insts, rows);
    if rows != [] {
      LastRowWins(insts, rows[..|rows| - 1], k);
      ApplyRowsKeepsMatching(insts, rows[..|rows| - 1]);
    }
  }

  /** A row whose box matches no instance changes nothing. */
  lemma ApplyRowWithoutMatch(insts: seq<Instance>, row: Row)
    requires !HasBox(insts, row.box)
    ensures ApplyRow(insts, row) == insts
  {
  }

  /** Exactly the rows no child matched remain, each unmatched. */
  lemma {:induction false} RemainingSpec(rows: seq<Row>, children: seq<Child>)
    ensures forall k | 0 <= k < |Remaining(rows, children)| ::
      Remaining(rows, children)[k] in rows && !BoxMatched(children, Remaining(rows, children)[k].box)
    ensures forall k | 0 <= k < |rows| :: !BoxMatched(children, rows[k].box) ==> rows[k] in Remaining(rows, children)
  {
    if rows != [] {
      var init := rows[..|rows| - 1];
      RemainingSpec(init, children);
      assert forall k | 0 <= k < |init| :: rows[k] == init[k];
    }
  }

  /** With no children every row remains and nothing fails. */
  lemma {:induction false} NoChildren(rows: seq<Row>, rejects: set<nat>)
    ensures Remaining(rows, []) == rows
    ensures FailedUpdates(rows, [], rejects) == []
  {
    if rows != [] {
      NoChildren(rows[..|rows| - 1], rejects);
    }
  }

  lemma {:induction false} DeleteWithout(rows: seq<Row>, ms: seq<Row>, d: Row)
    ensures Delete(Without(rows, ms), d) == Without(rows, ms + [d])
  {
    if rows != [] {
      var init := rows[..|rows| - 1];
      DeleteWithout(init, ms, d);
      var w := Without(init, ms);
      var last := rows[|rows| - 1];
      if last !in ms {
        assert (w + [last])[..|w|] == w;
      }
    }
  }

  /** Deleting the matched rows leaves the unmatched ones, when the matched
      rows are exactly the rows some child matched. */
  lemma {:induction false} WithoutMatched(rows: seq<Row>, matched: seq<Row>, children: seq<Child>)
    requires forall k | 0 <= k < |matched| :: BoxMatched(children, matched[k].box)
    requires forall k | 0 <= k < |rows| :: BoxMatched(children, rows[k].box) ==> rows[k] in matched
    ensures Without(rows, matched) == Remaining(rows, children)
  {
    if rows != [] {
      var init := rows[..|rows| - 1];
      WithoutMatched(init, matched, children);
    }
  }

  lemma WithoutNothing(rows: seq<Row>)
    ensures Without(rows, []) == rows
  {
  }

  // ---------------------------------------------------------------------
  // The loops

  /** One more instance scanned: it has the box, or an earlier one did. */
  lemma HasBoxStep(insts: seq<Instance>, m: nat, box: Option<string>)
    requires m < |insts|
    ensures HasBox(insts[..m + 1], box) == (HasBox(insts[..m], box) || MatchesBox(insts[m], box))
  {
    if HasBox(insts[..m + 1], box) && !MatchesBox(insts[m], box) {
      var k :| 0 <= k < m + 1 && MatchesBox(insts[..m + 1][k], box);
      assert insts[..m][k] == insts[..m + 1][k];
    }
    if HasBox(insts[..m], box) {
      var k :| 0 <= k < m && MatchesBox(insts[..m][k], box);
      assert insts[..m + 1][k] == insts[..m][k];
    }
    if MatchesBox(insts[m], box) {
      assert insts[..m + 1][m] == insts[m];
    }
  }

  /** One more instance scanned: its complaint, if any, comes last. */
  lemma InstanceFailuresStep(id: nat, insts: seq<Instance>, m: nat, row: Row)
    requires m < |insts|
    ensures InstanceFailures(id, insts[..m + 1], row)
         == InstanceFailures(id, insts[..m], row)
            + (if MatchesBox(insts[m], row.box) then [UpdateFailed(id, row.box, row.barcode)] else [])
  {
    assert insts[..m + 1][..m] == insts[..m];
  }

  /** The state of lines 208-219 after the first `m` instances of a child. */
  ghost predicate InstancesDone(st: Store, child: Child, row: Row, m: nat,
                                insts: seq<Instance>, st': Store, hit: bool, fails: seq<Complaint>)
    requires m <= |child.obj.instances|
  {
    var original := child.obj.instances;
    && |insts| == |original|
    && (forall k | 0 <= k < m :: insts[k] == SetBarcode(original[k], row))
    && (forall k | m <= k < |insts| :: insts[k] == original[k])
    && hit == HasBox(original[..m], row.box)
    && st' == (if hit && child.id !in st.rejects
               then st.(objects := st.objects[child.id := child.obj.(instances := insts)]) else st)
    && fails == if child.id in st.rejects then InstanceFailures(child.id, original[..m], row) else []
  }

  /** Line 209-218 for the instance at `m`. */
  method UpdateInstance(st: Store, child: Child, row: Row, m: nat,
                        insts: seq<Instance>, st0: Store, hit0: bool, fails0: seq<Complaint>)
    returns (insts': seq<Instance>, st': Store, hit: bool, fails: seq<Complaint>)
    requires m < |child.obj.instances|
    requires InstancesDone(st, child, row, m, insts, st0, hit0, fails0)
    ensures InstancesDone(st, child, row, m + 1, insts', st', hit, fails)
  {
    HasBoxStep(child.obj.instances, m, row.box);
    InstanceFailuresStep(child.id, child.obj.instances, m, row);
    insts', st', hit, fails := insts, st0, hit0, fails0;
    var i := insts[m];
    if i.container.Some? && i.container.value.type1 == "box" && i.container.value.indicator1 == row.box {
      insts' := insts[m := i.(container := Some(i.container.value.(barcode1 := row.barcode)))];
      if child.id in st0.rejects {
        fails := fails + [UpdateFailed(child.id, row.box, row.barcode)];
      } else {
        st' := st0.(objects := st0.objects[child.id := child.obj.(instances := insts')]);
      }
      hit := true;
    }
  }

  /** Lines 208-219 for one row and one child: every matching instance gets
      the row's barcode, and after each such change the child is written
      back, or a complaint is logged when the store refuses it. */
  method UpdateChildBarcodes(st: Store, child: Child, row: Row)
    returns (st': Store, child': Child, hit: bool, fails: seq<Complaint>)
    ensures child' == child.(obj := child.obj.(instances := ApplyRow(child.obj.instances, row)))
    ensures hit == HasBox(child.obj.instances, row.box)
    ensures st' == if hit && child.id !in st.rejects
                   then st.(objects := st.objects[child.id := child'.obj]) else st
    ensures fails == if child.id in st.rejects then InstanceFailures(child.id, child.obj.instances, row) else []
  {
    var original := child.obj.instances;
    var insts := original;
    st', hit, fails := st, false, [];
    assert original[..0] == [];
    for m := 0 to |original|
      invariant InstancesDone(st, child, row, m, insts, st', hit, fails)
    {
      insts, st', hit, fails := UpdateInstance(st, child, row, m, insts, st', hit, fails);
    }
    assert original[..|original|] == original;
    child' := child.(obj := child.obj.(instances := insts));
    assert insts == ApplyRow(original, row);
  }

  lemma BoxMatchedStep(children: seq<Child>, j: nat, box: Option<string>)
    requires j < |children|
    ensures BoxMatched(children[..j + 1], box)
        == (BoxMatched(children[..j], box) || HasBox(children[j].obj.instances, box))
  {
    if HasBox(children[j].obj.instances, box) {
      assert HasBox(children[..j + 1][j].obj.instances, box);
    }
    if BoxMatched(children[..j + 1], box) && !HasBox(children[j].obj.instances, box) {
      var q :| 0 <= q < j + 1 && HasBox(children[..j + 1][q].obj.instances, box);
      assert children[..j][q] == children[..j + 1][q];
    }
    if BoxMatched(children[..j], box) {
      var q :| 0 <= q < j && HasBox(children[..j][q].obj.instances, box);
      assert children[..j][q] == children[..j + 1][q];
    }
  }

  /** One more child: its complaints, if any, come last. */
  lemma ChildFailuresStep(children: seq<Child>, j: nat, row: Row, rejects: set<nat>)
    requires j < |children|
    ensures ChildFailures(children[..j + 1], row, rejects)
         == ChildFailures(children[..j], row, rejects)
            + (if children[j].id in rejects then InstanceFailures(children[j].id, children[j].obj.instances, row) else [])
  {
    assert children[..j + 1][..j] == children[..j];
  }

  /** The state of lines 205-220 after the first `j` children. */
  ghost predicate ChildrenDone(st: Store, children: seq<Child>, row: Row, j: nat,
                               st': Store, children': seq<Child>, hit: bool, fails: seq<Complaint>)
    requires j <= |children|
  {
    && (forall q | 0 <= q < |children| :: children[q].id in st.objects)
    && st' == st.(objects := st'.objects)
    && st'.objects.Keys == st.objects.Keys
    && |children'| == j
    && (forall q | 0 <= q < j ::
          children'[q] == children[q].(obj := children[q].obj.(instances := ApplyRow(children[q].obj.instances, row))))
    && hit == BoxMatched(children[..j], row.box)
    && (forall q | 0 <= q < j ::
          st'.objects[children[q].id] ==
            if HasBox(children[q].obj.instances, row.box) && children[q].id !in st.rejects
            then children'[q].obj else st.objects[children[q].id])
    && (forall q | j <= q < |children| :: st'.objects[children[q].id] == st.objects[children[q].id])
    && (forall id | id in st.objects && !IsChildId(children, id) :: st'.objects[id] == st.objects[id])
    && fails == ChildFailures(children[..j], row, st.rejects)
  }

  /** Lines 206-219 for the child at `j`. */
  method UpdateChildAt(st: Store, children: seq<Child>, row: Row, j: nat,
                       st0: Store, children0: seq<Child>, hit0: bool, fails0: seq<Complaint>)
    returns (st': Store, children': seq<Child>, hit: bool, fails: seq<Complaint>)
    requires ChildIdsDistinct(children)
    requires forall q | 0 <= q < |children| :: children[q].id in st.objects
    requires j < |children|
    requires ChildrenDone(st, children, row, j, st0, children0, hit0, fails0)
    ensures ChildrenDone(st, children, row, j + 1, st', children', hit, fails)
  {
    var c := children[j];
    var updated, childHit, childFails;
    st', updated, childHit, childFails := UpdateChildBarcodes(st0, c, row);
    BoxMatchedStep(children, j, row.box);
    ChildFailuresStep(children, j, row, st.rejects);
    assert forall q | 0 <= q < |children| && q != j :: children[q].id != c.id;
    assert forall id | !IsChildId(children, id) :: id != c.id;
    children' := children0 + [updated];
    hit := hit0 || childHit;
    fails := fails0 + childFails;
  }

  /** One row applied to every child: each child takes the row's barcode,
      a child with the box is written back unless the store refuses it,
      and nothing else in the store changes. */
  ghost predicate RowWritten(st: Store, children: seq<Child>, row: Row, st': Store, children': seq<Child>)
  {
    && (forall j | 0 <= j < |children| :: children[j].id in st.objects)
    && st' == st.(objects := st'.objects)
    && st'.objects.Keys == st.objects.Keys
    && |children'| == |children|
    && (forall j | 0 <= j < |children| ::
          children'[j] == children[j].(obj := children[j].obj.(instances := ApplyRow(children[j].obj.instances, row))))
    && (forall j | 0 <= j < |children| ::
          st'.objects[children[j].id] ==
            if HasBox(children[j].obj.instances, row.box) && children[j].id !in st.rejects
            then children'[j].obj else st.objects[children[j].id])
    && (forall id | id in st.objects && !IsChildId(children, id) :: st'.objects[id] == st.objects[id])
  }

  /** Lines 205-220 for one row: every child in turn. */
  method UpdateChildren(st: Store, children: seq<Child>, row: Row)
    returns (st': Store, children': seq<Child>, hit: bool, fails: seq<Complaint>)
    requires ChildIdsDistinct(children)
    requires forall j | 0 <= j < |children| :: children[j].id in st.objects
    ensures RowWritten(st, children, row, st', children')
    ensures hit == BoxMatched(children, row.box)
    ensures fails == ChildFailures(children, row, st.rejects)
  {
    st', children', hit, fails := st, [], false, [];
    assert children[..0] == [];
    for j := 0 to |children|
      invariant ChildrenDone(st, children, row, j, st', children', hit, fails)
    {
      st', children', hit, fails := UpdateChildAt(st, children, row, j, st', children', hit, fails);
    }
    assert children[..|children|] == children;
  }

  /** Children updated by earlier rows have the same boxes. */
  lemma UpdatedChildrenHaveBoxes(children: seq<Child>, ch: seq<Child>, rs: seq<Row>, box: Option<string>)
    requires |ch| == |children|
    requires forall j | 0 <= j < |children| :: ch[j] == UpdatedChild(children[j], rs)
    ensures forall j | 0 <= j < |children| ::
      HasBox(ch[j].obj.instances, box) == HasBox(children[j].obj.instances, box)
  {
    forall j | 0 <= j < |children|
      ensures HasBox(ch[j].obj.instances, box) == HasBox(children[j].obj.instances, box)
    {
      ApplyRowsKeepsMatching(children[j].obj.instances, rs);
      var a, b := ch[j].obj.instances, children[j].obj.instances;
      if HasBox(b, box) {
        var k :| 0 <= k < |b| && MatchesBox(b[k], box);
        assert MatchesBox(a[k], box);
      }
    }
  }

  /** Children updated by earlier rows match the same boxes and fail the
      same way as when they were fetched. */
  lemma {:induction false} UpdatedChildrenAgree(children: seq<Child>, ch: seq<Child>, rs: seq<Row>,
                                               row: Row, rejects: set<nat>)
    requires |ch| == |children|
    requires forall j | 0 <= j < |children| :: ch[j] == UpdatedChild(children[j], rs)
    ensures forall j | 0 <= j < |children| ::
      HasBox(ch[j].obj.instances, row.box) == HasBox(children[j].obj.instances, row.box)
    ensures BoxMatched(ch, row.box) == BoxMatched(children, row.box)
    ensures ChildFailures(ch, row, rejects) == ChildFailures(children, row, rejects)
  {
    UpdatedChildrenHaveBoxes(children, ch, rs, row.box);
    if children != [] {
      var n := |children| - 1;
      UpdatedChildrenAgree(children[..n], ch[..n], rs, row, rejects);
      ApplyRowsKeepsMatching(children[n].obj.instances, rs);
      InstanceFailuresByMatching(children[n].id, ch[n].obj.instances, children[n].obj.instances, row);
    }
  }

  lemma TouchedStep(insts: seq<Instance>, rows: seq<Row>, i: nat)
    requires i < |rows|
    ensures Touched(insts, rows[..i + 1]) == (Touched(insts, rows[..i]) || HasBox(insts, rows[i].box))
  {
    if Touched(insts, rows[..i + 1]) && !HasBox(insts, rows[i].box) {
      var k :| 0 <= k < i + 1 && HasBox(insts, rows[..i + 1][k].box);
      assert rows[..i][k] == rows[..i + 1][k];
    }
    if Touched(insts, rows[..i]) {
      var k :| 0 <= k < i && HasBox(insts, rows[..i][k].box);
      assert rows[..i][k] == rows[..i + 1][k];
    }
    if HasBox(insts, rows[i].box) {
      assert rows[..i + 1][i] == rows[i];
    }
  }

  /** The children carry the barcodes of the first `i` rows, each touched
      child was written back unless the store refuses it, and nothing else
      in the store changed. */
  ghost predicate ChildrenWritten(st: Store, children: seq<Child>, rows: seq<Row>, i: nat,
                                  st': Store, children': seq<Child>)
    requires i <= |rows|
  {
    && (forall j | 0 <= j < |children| :: children[j].id in st.objects)
    && st' == st.(objects := st'.objects)
    && st'.objects.Keys == st.objects.Keys
    && |children'| == |children|
    && (forall j | 0 <= j < |children| :: children'[j] == UpdatedChild(children[j], rows[..i]))
    && (forall j | 0 <= j < |children| ::
          st'.objects[children[j].id] ==
            if Touched(children[j].obj.instances, rows[..i]) && children[j].id !in st.rejects
            then children'[j].obj else st.objects[children[j].id])
    && (forall id | id in st.objects && !IsChildId(children, id) :: st'.objects[id] == st.objects[id])
  }

  /** `matched` holds exactly the rows among the first `i` that some child matched. */
  ghost predicate MatchedRows(children: seq<Child>, rows: seq<Row>, i: nat, matched: seq<Row>)
    requires i <= |rows|
  {
    && (forall k | 0 <= k < |matched| :: matched[k] in rows && BoxMatched(children, matched[k].box))
    && (forall k | 0 <= k < i :: BoxMatched(children, rows[k].box) ==> rows[k] in matched)
  }

  /** The state of lines 199-222 after the first `i` rows, with the
      complaints those rows caused. */
  ghost predicate BoxesUpdated(st: Store, children: seq<Child>, rows: seq<Row>, i: nat,
                               st': Store, children': seq<Child>, matched: seq<Row>, fails: seq<Complaint>)
    requires i <= |rows|
  {
    && ChildrenWritten(st, children, rows, i, st', children')
    && MatchedRows(children, rows, i, matched)
    && fails == FailedUpdates(rows[..i], children, st.rejects)
  }

  /** `data_updated_child` stays exactly the rows some child matched. */
  lemma MatchedStep(children: seq<Child>, rows: seq<Row>, i: nat, matched0: seq<Row>, matched: seq<Row>)
    requires i < |rows|
    requires MatchedRows(children, rows, i, matched0)
    requires matched == if BoxMatched(children, rows[i].box) then matched0 + [rows[i]] else matched0
    ensures MatchedRows(children, rows, i + 1, matched)
  {
    forall k | 0 <= k < |matched|
      ensures matched[k] in rows && BoxMatched(children, matched[k].box)
    {
      if k < |matched0| {
        assert matched[k] == matched0[k];
      } else {
        assert matched[k] == rows[i];
      }
    }
    forall k | 0 <= k < i + 1 && BoxMatched(children, rows[k].box)
      ensures rows[k] in matched
    {
      if k < i {
        assert rows[k] in matched0;
      }
    }
  }

  /** Each child and its stored value after one more row. */
  lemma ChildrenPointwise(st: Store, children: seq<Child>, rows: seq<Row>, i: nat,
                          st0: Store, children0: seq<Child>, st': Store, children': seq<Child>)
    requires i < |rows|
    requires |children0| == |children| && |children'| == |children|
    requires forall j | 0 <= j < |children| :: children[j].id in st.objects
    requires st0.objects.Keys == st.objects.Keys && st'.objects.Keys == st.objects.Keys
    requires forall j | 0 <= j < |children| :: children0[j].id == children[j].id
    requires forall j | 0 <= j < |children| :: children0[j] == UpdatedChild(children[j], rows[..i])
    requires forall j | 0 <= j < |children| ::
      st0.objects[children[j].id] ==
        if Touched(children[j].obj.instances, rows[..i]) && children[j].id !in st.rejects
        then children0[j].obj else st.objects[children[j].id]
    requires forall j | 0 <= j < |children| ::
      children'[j] == children0[j].(obj := children0[j].obj.(instances := ApplyRow(children0[j].obj.instances, rows[i])))
    requires forall j | 0 <= j < |children| ::
      HasBox(children0[j].obj.instances, rows[i].box) == HasBox(children[j].obj.instances, rows[i].box)
    requires forall j | 0 <= j < |children| ::
      st'.objects[children0[j].id] ==
        if HasBox(children0[j].obj.instances, rows[i].box) && children0[j].id !in st.rejects
        then children'[j].obj else st0.objects[children0[j].id]
    ensures forall j | 0 <= j < |children| :: children'[j] == UpdatedChild(children[j], rows[..i + 1])
    ensures forall j | 0 <= j < |children| ::
      st'.objects[children[j].id] ==
        if Touched(children[j].obj.instances, rows[..i + 1]) && children[j].id !in st.rejects
        then children'[j].obj else st.objects[children[j].id]
  {
    assert rows[..i + 1][..i] == rows[..i];
    forall j | 0 <= j < |children|
      ensures children'[j] == UpdatedChild(children[j], rows[..i + 1])
      ensures st'.objects[children[j].id] ==
        if Touched(children[j].obj.instances, rows[..i + 1]) && children[j].id !in st.rejects
        then children'[j].obj else st.objects[children[j].id]
    {
      TouchedStep(children[j].obj.instances, rows, i);
      if !HasBox(children0[j].obj.instances, rows[i].box) {
        ApplyRowWithoutMatch(children0[j].obj.instances, rows[i]);
      }
    }
  }

  /** The children and the store after one more row. */
  lemma ChildrenStep(st: Store, children: seq<Child>, rows: seq<Row>, i: nat,
                     st0: Store, children0: seq<Child>, st': Store, children': seq<Child>)
    requires i < |rows|
    requires ChildrenWritten(st, children, rows, i, st0, children0)
    requires RowWritten(st0, children0, rows[i], st', children')
    ensures ChildrenWritten(st, children, rows, i + 1, st', children')
  {
    assert forall j | 0 <= j < |children| :: children0[j].id == children[j].id;
    UpdatedChildrenHaveBoxes(children, children0, rows[..i], rows[i].box);
    ChildrenPointwise(st, children, rows, i, st0, children0, st', children');
    forall id | IsChildId(children0, id)
      ensures IsChildId(children, id)
    {
      var j :| 0 <= j < |children0| && children0[j].id == id;
      assert children[j].id == id;
    }
  }

  /** The complaints after one more row. */
  lemma FailsStep(st: Store, children: seq<Child>, rows: seq<Row>, i: nat,
                  children0: seq<Child>, fails0: seq<Complaint>, rowFails: seq<Complaint>)
    requires i < |rows|
    requires |children0| == |children|
    requires forall j | 0 <= j < |children| :: children0[j] == UpdatedChild(children[j], rows[..i])
    requires fails0 == FailedUpdates(rows[..i], children, st.rejects)
    requires rowFails == ChildFailures(children0, rows[i], st.rejects)
    ensures fails0 + rowFails == FailedUpdates(rows[..i + 1], children, st.rejects)
  {
    UpdatedChildrenAgree(children, children0, rows[..i], rows[i], st.rejects);
    assert rows[..i + 1][..i] == rows[..i];
  }

  /** Lines 200-221 for the row `rows[i]`. */
  method UpdateForRow(st: Store, children: seq<Child>, rows: seq<Row>, i: nat,
                      st0: Store, children0: seq<Child>, matched0: seq<Row>, fails0: seq<Complaint>)
    returns (st': Store, children': seq<Child>, matched: seq<Row>, fails: seq<Complaint>)
    requires ChildIdsDistinct(children)
    requires i < |rows|
    requires BoxesUpdated(st, children, rows, i, st0, children0, matched0, fails0)
    ensures BoxesUpdated(st, children, rows, i + 1, st', children', matched, fails)
  {
    var row := rows[i];
    assert ChildIdsDistinct(children0) && forall j | 0 <= j < |children0| :: children0[j].id in st0.objects by {
      assert forall j | 0 <= j < |children| :: children0[j].id == children[j].id;
    }
    var hit, rowFails;
    st', children', hit, rowFails := UpdateChildren(st0, children0, row);
    ChildrenStep(st, children, rows, i, st0, children0, st', children');
    matched := if hit then matched0 + [row] else matched0;
    assert BoxMatched(children0, row.box) == BoxMatched(children, row.box) by {
      UpdatedChildrenAgree(children, children0, rows[..i], row, st.rejects);
    }
    MatchedStep(children, rows, i, matched0, matched);
    fails := fails0 + rowFails;
    FailsStep(st, children, rows, i, children0, fails0, rowFails);
  }

  /** Lines 199-222: every row against every child, remembering the rows
      that matched. */
  method UpdateMatchingBoxes(st: Store, children: seq<Child>, rows: seq<Row>)
    returns (st': Store, children': seq<Child>, matched: seq<Row>, fails: seq<Complaint>)
    requires ChildIdsDistinct(children)
    requires forall j | 0 <= j < |children| :: children[j].id in st.objects
    ensures st' == st.(objects := st'.objects)
    ensures st'.objects.Keys == st.objects.Keys
    ensures |children'| == |children|
    ensures forall j | 0 <= j < |children| :: children'[j] == UpdatedChild(children[j], rows)
    ensures forall j | 0 <= j < |children| ::
      st'.objects[children[j].id] ==
        if Touched(children[j].obj.instances, rows) && children[j].id !in st.rejects
        then children'[j].obj else st.objects[children[j].id]
    ensures forall id | id in st.objects && !IsChildId(children, id) :: st'.objects[id] == st.objects[id]
    ensures forall k | 0 <= k < |matched| :: matched[k] in rows && BoxMatched(children, matched[k].box)
    ensures forall k | 0 <= k < |rows| :: BoxMatched(children, rows[k].box) ==> rows[k] in matched
    ensures fails == FailedUpdates(rows, children, st.rejects)
  {
    st', children', matched, fails := st, children, [], [];
    assert forall j | 0 <= j < |children| :: children[j] == UpdatedChild(children[j], rows[..0]);
    for i := 0 to |rows|
      invariant BoxesUpdated(st, children, rows, i, st', children', matched, fails)
    {
      st', children', matched, fails := UpdateForRow(st, children, rows, i, st', children', matched, fails);
    }
    assert rows[..|rows|] == rows;
  }

  /** Line 223: each matched row deleted from the group's rows in turn,
      every copy of it at once. */
  method RemoveMatched(data: seq<Row>, matched: seq<Row>) returns (rest: seq<Row>)
    ensures rest == Without(data, matched)
  {
    rest := data;
    WithoutNothing(data);
    assert matched[..0] == [];
    for i := 0 to |matched|
      invariant rest == Without(data, matched[..i])
    {
      DeleteWithout(data, matched[..i], matched[i]);
      assert matched[..i + 1] == matched[..i] + [matched[i]];
      rest := Delete(rest, matched[i]);
    }
    assert matched[..|matched|] == matched;
  }

  /** The series archival object before its new containers: the stored one
      when the series exists, otherwise the one line 191 creates. */
  function SeriesBase(st: Store, series: string, g: SeriesGroup): ArchivalObject
    requires g.existing ==> g.id.Some? && g.id.value in st.objects
  {
    if g.existing then st.objects[g.id.value]
    else NewSeries(BuildSeries(series, g.resourceUri), g.resourceId, g.repoId)
  }

  /** Lines 189-193: a series the store lacks is created under the
      resource, with the next id. */
  method EnsureSeries(st: Store, series: string, g: SeriesGroup) returns (st': Store, sid: nat)
    requires st.Valid() && GroupValid(st, g)
    ensures st'.Valid()
    ensures sid == if g.existing then g.id.value else st.nextId
    ensures sid in st'.objects && st'.objects[sid] == SeriesBase(st, series, g)
    ensures !g.existing ==> sid !in st.objects
    ensures st'.objects.Keys == st.objects.Keys + {sid}
    ensures forall id | id in st.objects :: st'.objects[id] == st.objects[id]
    ensures st'.resources == st.resources && st'.resourceOrder == st.resourceOrder
    ensures st'.rejects == st.rejects
    ensures st'.objectOrder == if g.existing then st.objectOrder else st.objectOrder + [st.nextId]
    ensures st'.nextId == if g.existing then st.nextId else st.nextId + 1
  {
    if g.existing {
      st', sid := st, g.id.value;
    } else {
      var payload := BuildSeries(series, g.resourceUri);
      var created := st.CreateSeries(payload, g.resourceId, g.repoId);
      st', sid := created.0, created.1;
    }
  }

  /** Lines 226-237: when rows remain, the series is fetched, one box
      container per row is pushed onto its instances, and it is written
      back in one update. */
  method AddSeriesContainers(st: Store, sid: nat, rows: seq<Row>) returns (st': Store)
    requires st.Valid() && sid in st.objects
    ensures st'.Valid()
    ensures st' == st.(objects := st'.objects)
    ensures st'.objects.Keys == st.objects.Keys
    ensures st'.objects[sid] == st.objects[sid].(instances := st.objects[sid].instances + Containers(rows))
    ensures forall id | id in st.objects && id != sid :: st'.objects[id] == st.objects[id]
  {
    if rows == [] {
      st' := st;
      assert Containers(rows) == [];
      assert st.objects[sid].(instances := st.objects[sid].instances + []) == st.objects[sid];
      assert st.objects[sid := st.objects[sid]] == st.objects;
    } else {
      var ao := st.objects[sid];
      var insts := AppendContainers(ao.instances, rows);
      st' := st.(objects := st.objects[sid := ao.(instances := insts)]);
    }
  }

  /** Line 223 after lines 199-222: deleting the matched rows leaves the
      rows no child matched. */
  method MatchAndRemove(st: Store, children: seq<Child>, rows: seq<Row>)
    returns (st': Store, children': seq<Child>, rest: seq<Row>, fails: seq<Complaint>)
    requires ChildIdsDistinct(children)
    requires forall j | 0 <= j < |children| :: children[j].id in st.objects
    ensures st' == st.(objects := st'.objects)
    ensures st'.objects.Keys == st.objects.Keys
    ensures |children'| == |children|
    ensures forall j | 0 <= j < |children| :: children'[j] == UpdatedChild(children[j], rows)
    ensures forall j | 0 <= j < |children| ::
      st'.objects[children[j].id] ==
        if Touched(children[j].obj.instances, rows) && children[j].id !in st.rejects
        then children'[j].obj else st.objects[children[j].id]
    ensures forall id | id in st.objects && !IsChildId(children, id) :: st'.objects[id] == st.objects[id]
    ensures rest == Remaining(rows, children)
    ensures fails == FailedUpdates(rows, children, st.rejects)
    ensures ParentsKept(st, st', children)
  {
    var matched;
    if |children| > 0 {
      st', children', matched, fails := UpdateMatchingBoxes(st, children, rows);
    } else {
      NoChildren(rows, st.rejects);
      st', children', matched, fails := st, children, [], [];
      assert forall k | 0 <= k < |rows| :: !BoxMatched(children, rows[k].box);
    }
    rest := RemoveMatched(rows, matched);
    WithoutMatched(rows, matched, children);
    forall id | id in st.objects
      ensures st'.objects[id].parent == st.objects[id].parent
           || exists j | 0 <= j < |children| :: children[j].id == id && st'.objects[id].parent == children[j].obj.parent
    {
      if IsChildId(children, id) {
        var j :| 0 <= j < |children| && children[j].id == id;
        assert st'.objects[id].parent == children[j].obj.parent || st'.objects[id] == st.objects[id];
      }
    }
  }

  /** Writing children back changes no parent link but a child's own. */
  ghost predicate ParentsKept(st: Store, st': Store, children: seq<Child>)
    requires st.objects.Keys <= st'.objects.Keys
  {
    forall id | id in st.objects ::
      || st'.objects[id].parent == st.objects[id].parent
      || exists j | 0 <= j < |children| :: children[j].id == id && st'.objects[id].parent == children[j].obj.parent
  }

  lemma ChildWritesKeepValid(st: Store, st': Store, g: SeriesGroup)
    requires st.Valid() && GroupValid(st, g)
    requires st' == st.(objects := st'.objects) && st'.objects.Keys == st.objects.Keys
    requires ParentsKept(st, st', g.children)
    ensures st'.Valid()
  {
    forall id | id in st'.objects
      ensures st'.objects[id].parent != Some(id)
    {
      if st'.objects[id].parent != st.objects[id].parent {
        var j :| 0 <= j < |g.children| && g.children[j].id == id && st'.objects[id].parent == g.children[j].obj.parent;
        assert g.children[j].id != g.id.value;
      }
    }
  }

  /** Lines 199-223 for a valid group: the children written back keep the
      store valid. */
  method WriteChildren(st: Store, g: SeriesGroup)
    returns (st': Store, children': seq<Child>, rest: seq<Row>, fails: seq<Complaint>)
    requires st.Valid() && GroupValid(st, g)
    ensures st'.Valid()
    ensures st' == st.(objects := st'.objects)
    ensures st'.objects.Keys == st.objects.Keys
    ensures |children'| == |g.children|
    ensures forall j | 0 <= j < |g.children| :: children'[j] == UpdatedChild(g.children[j], g.data)
    ensures forall j | 0 <= j < |g.children| ::
      st'.objects[g.children[j].id] ==
        if Touched(g.children[j].obj.instances, g.data) && g.children[j].id !in st.rejects
        then children'[j].obj else st.objects[g.children[j].id]
    ensures forall id | id in st.objects && !IsChildId(g.children, id) :: st'.objects[id] == st.objects[id]
    ensures rest == Remaining(g.data, g.children)
    ensures fails == FailedUpdates(g.data, g.children, st.rejects)
  {
    st', children', rest, fails := MatchAndRemove(st, g.children, g.data);
    assert st'.Valid() by {
      ChildWritesKeepValid(st, st', g);
    }
  }

  /** The series group after pass 2 has an id, keeps its other fields, and
      holds the updated children and the rows that became new containers. */
  predicate GroupImported(g: SeriesGroup, g': SeriesGroup, sid: nat)
  {
    && g' == g.(id := Some(sid), data := g'.data, children := g'.children)
    && g'.data == Remaining(g.data, g.children)
    && |g'.children| == |g.children|
    && forall j | 0 <= j < |g.children| :: g'.children[j] == UpdatedChild(g.children[j], g.data)
  }

  /** Lines 195-237 for a series group whose series `sid` is in the store:
      the children take the rows' barcodes and are written back, and the
      rows no child matched become new containers of the series. */
  method UpdateSeries(st: Store, sid: nat, g: SeriesGroup)
    returns (st': Store, g': SeriesGroup, fails: seq<Complaint>)
    requires st.Valid() && GroupValid(st, g) && sid in st.objects
    requires g.existing ==> g.id.value == sid
    ensures st'.Valid()
    ensures st' == st.(objects := st'.objects)
    ensures st'.objects.Keys == st.objects.Keys
    ensures GroupImported(g, g', sid)
    ensures st'.objects[sid] == st.objects[sid].(instances := st.objects[sid].instances + Containers(g'.data))
    ensures forall j | 0 <= j < |g.children| ::
      st'.objects[g.children[j].id] ==
        if Touched(g.children[j].obj.instances, g.data) && g.children[j].id !in st.rejects
        then g'.children[j].obj else st.objects[g.children[j].id]
    ensures forall id | id in st.objects && id != sid && !IsChildId(g.children, id) ::
      st'.objects[id] == st.objects[id]
    ensures fails == FailedUpdates(g.data, g.children, st.rejects)
  {
    var st1, children', rest;
    st1, children', rest, fails := WriteChildren(st, g);
    assert !IsChildId(g.children, sid) && forall j | 0 <= j < |g.children| :: g.children[j].id != sid;
    g' := g.(id := Some(sid), data := rest, children := children');
    st' := AddSeriesContainers(st1, sid, rest);
  }

  /** Lines 183-240 for one series group: the series exists afterwards
      (created with the next id when it was missing); each child box
      container carries the barcode of the last row naming its box and
      each touched child is written back unless the store refuses it; the
      rows no child matched are appended to the series as new box
      containers; nothing else in the store changes. */
  method ImportSeriesGroup(st: Store, series: string, g: SeriesGroup)
    returns (st': Store, g': SeriesGroup, fails: seq<Complaint>)
    requires st.Valid() && GroupValid(st, g)
    ensures st'.Valid()
    ensures g'.id == if g.existing then g.id else Some(st.nextId)
    ensures GroupImported(g, g', g'.id.value)
    ensures st'.resources == st.resources && st'.resourceOrder == st.resourceOrder
    ensures st'.rejects == st.rejects
    ensures st'.objectOrder == if g.existing then st.objectOrder else st.objectOrder + [st.nextId]
    ensures st'.nextId == if g.existing then st.nextId else st.nextId + 1
    ensures st'.objects.Keys == st.objects.Keys + {g'.id.value}
    ensures st'.objects[g'.id.value] ==
      SeriesBase(st, series, g).(instances := SeriesBase(st, series, g).instances + Containers(g'.data))
    ensures forall j | 0 <= j < |g.children| ::
      st'.objects[g.children[j].id] ==
        if Touched(g.children[j].obj.instances, g.data) && g.children[j].id !in st.rejects
        then g'.children[j].obj else st.objects[g.children[j].id]
    ensures forall id | id in st.objects && id != g'.id.value && !IsChildId(g.children, id) ::
      st'.objects[id] == st.objects[id]
    ensures fails == FailedUpdates(g.data, g.children, st.rejects)
  {
    var st1, sid := EnsureSeries(st, series, g);
    assert GroupValid(st1, g);
    st', g', fails := UpdateSeries(st1, sid, g);
  }
}
