/** `add_to_table` and the row-building loop of `main`: one row per pod, in the order the
    pods were returned, each row the coloured pod name and the coloured joined images. */
module TableBuilding {
  import opened PodModel
  import opened ImageExtraction
  import opened Joining
  import opened Colouring

  /** `add_to_table(pod, images, table)`: the table with the row `[pod, images]` appended. */
  function AddToTable(pod: string, images: string, table: Table): (r: Table)
    ensures |r| == |table| + 1
    ensures r[..|table|] == table
    ensures r[|table|] == Row(pod, images)
  {
    table + [Row(pod, images)]
  }

  /** The row the loop builds for `pod`. */
  function RowOf(p: Palette, pod: Pod): Row
  {
    Row(Cyan(p, pod.name), Magenta(p, Join(ImagesOfPod(pod))))
  }

  /** One pass of the loop in `main` for `pod`. */
  function LoopBody(p: Palette, pod: Pod, table: Table): Table
  {
    var row := RowOf(p, pod);
    AddToTable(row.pod, row.images, table)
  }

  /** The table after the loop has run over `pods`, starting from the empty table. */
  function BuildTable(p: Palette, pods: seq<Pod>): (r: Table)
    ensures |r| == |pods|
    ensures forall i :: 0 <= i < |pods| ==> r[i] == RowOf(p, pods[i])
  {
    if |pods| == 0 then []
    else LoopBody(p, pods[|pods| - 1], BuildTable(p, pods[..|pods| - 1]))
  }

  /** The loop of `main` as written: start from the empty table and append one row per pod. */
  method RunLoop(p: Palette, pods: seq<Pod>) returns (table: Table)
    ensures table == BuildTable(p, pods)
    ensures |table| == |pods|
  {
    table := [];
    var i := 0;
    while i < |pods|
      invariant 0 <= i <= |pods|
      invariant table == BuildTable(p, pods[..i])
    {
      var pod := pods[i];
      var images := Join(ImagesOfPod(pod));
      table := AddToTable(Cyan(p, pod.name), Magenta(p, images), table);
      ghost var seen := pods[..i + 1];
      assert seen[..|seen| - 1] == pods[..i] && seen[|seen| - 1] == pod;
      assert table == LoopBody(p, pod, BuildTable(p, pods[..i]));
      i := i + 1;
    }
    assert pods[..i] == pods;
  }

  /** Building is a map over the pods: the table for `a + b` is the table for `a`
      followed by the table for `b`. */
  lemma {:induction false} BuildTableConcat(p: Palette, a: seq<Pod>, b: seq<Pod>)
    ensures BuildTable(p, a + b) == BuildTable(p, a) + BuildTable(p, b)
  {
    var whole, left, right := BuildTable(p, a + b), BuildTable(p, a), BuildTable(p, b);
    assert |whole| == |left + right|;
    forall i | 0 <= i < |whole|
      ensures whole[i] == (left + right)[i]
    {
      if i < |a| {
        calc {
          whole[i];
          RowOf(p, (a + b)[i]);
          { assert (a + b)[i] == a[i]; }
          RowOf(p, a[i]);
          left[i];
        }
      } else {
        var j := i - |a|;
        calc {
          whole[i];
          RowOf(p, (a + b)[i]);
          { assert (a + b)[i] == b[j]; }
          RowOf(p, b[j]);
          right[j];
        }
      }
    }
  }

  /** The table only grows: the rows built for the first `k` pods are never changed by
      the rows that follow. */
  lemma {:induction false} BuildTablePrefix(p: Palette, pods: seq<Pod>, k: nat)
    requires k <= |pods|
    ensures BuildTable(p, pods[..k]) == BuildTable(p, pods)[..k]
  {
    var front, whole := BuildTable(p, pods[..k]), BuildTable(p, pods);
    forall i | 0 <= i < k
      ensures front[i] == whole[i]
    {
      assert pods[..k][i] == pods[i];
    }
  }

  /** A pod without containers is kept, with a coloured empty string as its image cell. */
  lemma EmptyPodKept(p: Palette, pods: seq<Pod>, i: nat)
    requires i < |pods| && pods[i].containers == []
    ensures |BuildTable(p, pods)| == |pods|
    ensures BuildTable(p, pods)[i].images == Magenta(p, "")
  {
  }

  /** Each row gives its pod back: stripping the colour codes from the cells yields the
      pod's name and the comma-joined images of its containers. */
  lemma RowsRecoverPods(p: Palette, pods: seq<Pod>, i: nat)
    requires i < |pods|
    ensures Unwrap(p.cyan, BuildTable(p, pods)[i].pod, p.reset) == Some(pods[i].name)
    ensures Unwrap(p.magenta, BuildTable(p, pods)[i].images, p.reset)
         == Some(Join(ImagesOfPod(pods[i])))
  {
  }

  /** Pods `A` (one container), `B` (two containers) and `C` (none), in that order, give
      three rows in that order; `B`'s images are joined with the separator and `C` keeps
      a row with an empty image cell. */
  lemma ThreePodScenario(p: Palette)
    ensures BuildTable(p, [Pod("A", [Container("img-x:1.0")]),
                           Pod("B", [Container("img-y:2.0"), Container("img-z:3.0")]),
                           Pod("C", [])])
         == [Row(Cyan(p, "A"), Magenta(p, "img-x:1.0")),
             Row(Cyan(p, "B"), Magenta(p, "img-y:2.0, img-z:3.0")),
             Row(Cyan(p, "C"), Magenta(p, ""))]
  {
    var a := Pod("A", [Container("img-x:1.0")]);
    var b := Pod("B", [Container("img-y:2.0"), Container("img-z:3.0")]);
    var c := Pod("C", []);
    var t := BuildTable(p, [a, b, c]);
    assert ImagesOfPod(a) == ["img-x:1.0"];
    assert Join(ImagesOfPod(a)) == "img-x:1.0";
    assert ImagesOfPod(b) == ["img-y:2.0", "img-z:3.0"];
    assert ["img-y:2.0", "img-z:3.0"][1..] == ["img-z:3.0"];
    assert Join(ImagesOfPod(b)) == "img-y:2.0" + ", " + "img-z:3.0" == "img-y:2.0, img-z:3.0";
    assert ImagesOfPod(c) == [];
    assert t[0] == RowOf(p, a);
    assert t[1] == RowOf(p, b);
    assert t[2] == RowOf(p, c);
    assert |t| == 3;
  }
}
