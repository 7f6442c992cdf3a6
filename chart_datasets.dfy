/** `createChartDatasets`: one chart dataset per (group, title) pair, stacked
    per group, coloured from the group's own palette. */
module ChartDatasets {
  import opened Wrappers

  /** One `title: data` entry of a group object. */
  datatype Series<D> = Series(title: string, data: D)

  /** A dataset as the chart library receives it; an undefined colour is None.
      `title` is the dataset's `label` key, a word Dafny reserves. */
  datatype Dataset<D> = Dataset(title: string, backgroundColor: Option<string>, borderColor: Option<string>,
                                borderWidth: int, data: D, stack: int)

  /** Reading `color_scheme[i][index]` when `color_scheme[i]` is undefined
      throws; the exception carries the group it happened in. */
  datatype TypeError = ColorGroupUndefined(group: nat)

  /** `color_scheme[i][index]` when `color_scheme[i]` exists: undefined past
      the end of the palette. */
  function ColorAt(colorScheme: seq<seq<string>>, i: nat, index: nat): Option<string>
  {
    if i < |colorScheme| && index < |colorScheme[i]| then Some(colorScheme[i][index]) else None
  }

  /** The dataset for the entry at position `index` of group `i`. */
  function MakeDataset<D>(s: Series<D>, i: nat, index: nat, colorScheme: seq<seq<string>>): Dataset<D>
  {
    Dataset(s.title, ColorAt(colorScheme, i, index), ColorAt(colorScheme, i, index), 1, s.data, i + 1)
  }

  /** The datasets of group `i`, the colour index starting again at 0. */
  function GroupDatasets<D>(group: seq<Series<D>>, i: nat, colorScheme: seq<seq<string>>): (r: seq<Dataset<D>>)
  {
    seq(|group|, index requires 0 <= index < |group| => MakeDataset(group[index], i, index, colorScheme))
  }

  /** The result of the whole call: the datasets of every group in order, or
      the exception of the first non-empty group that has no palette. */
  function Datasets<D>(dData: seq<seq<Series<D>>>, colorScheme: seq<seq<string>>): Result<seq<Dataset<D>>, TypeError>
  {
    if dData == [] then Ok([])
    else
      var n := |dData| - 1;
      match Datasets(dData[..n], colorScheme)
      case Err(e) => Err(e)
      case Ok(ds) =>
        if n >= |colorScheme| && |dData[n]| > 0 then Err(ColorGroupUndefined(n))
        else Ok(ds + GroupDatasets(dData[n], n, colorScheme))
  }

  /** The number of entries across all groups. */
  function Total<D>(dData: seq<seq<Series<D>>>): nat
  {
    if dData == [] then 0 else Total(dData[..|dData| - 1]) + |dData[|dData| - 1]|
  }

  /** True when group i is non-empty and has no palette. */
  predicate Throws<D>(dData: seq<seq<Series<D>>>, colorScheme: seq<seq<string>>, i: int)
  {
    0 <= i < |dData| && i >= |colorScheme| && |dData[i]| > 0
  }

  /** The call throws exactly when some non-empty group has no palette, and
      the exception names the first such group. */
  lemma {:induction false} DatasetsThrowIff<D>(dData: seq<seq<Series<D>>>, colorScheme: seq<seq<string>>)
    ensures Datasets(dData, colorScheme).Err? <==> exists i :: Throws(dData, colorScheme, i)
    ensures Datasets(dData, colorScheme).Err? ==>
              var g := Datasets(dData, colorScheme).error.group;
              Throws(dData, colorScheme, g) && forall k :: 0 <= k < g ==> !Throws(dData, colorScheme, k)
  {
    if dData != [] {
      var n := |dData| - 1;
      var init := dData[..n];
      DatasetsThrowIff(init, colorScheme);
      forall k | 0 <= k < n ensures Throws(init, colorScheme, k) == Throws(dData, colorScheme, k) {
        assert init[k] == dData[k];
      }
      var r := Datasets(dData, colorScheme);
      if r.Err? {
        assert Throws(dData, colorScheme, r.error.group);
      } else {
        forall i | 0 <= i < |dData| ensures !Throws(dData, colorScheme, i) {
          if i < n {
            assert !Throws(init, colorScheme, i);
          }
        }
      }
    }
  }

  /** On success there is one dataset per entry: the entry at position j of
      group i is dataset number Total(groups before i) + j, carrying its
      title, stacked at i + 1 and coloured from palette i at index j. */
  lemma {:induction false} DatasetsAt<D>(dData: seq<seq<Series<D>>>, colorScheme: seq<seq<string>>, i: nat, j: nat)
    requires Datasets(dData, colorScheme).Ok?
    requires i < |dData| && j < |dData[i]|
    ensures |Datasets(dData, colorScheme).value| == Total(dData)
    ensures Total(dData[..i]) + j < Total(dData)
    ensures Datasets(dData, colorScheme).value[Total(dData[..i]) + j] ==
              Dataset(dData[i][j].title, ColorAt(colorScheme, i, j), ColorAt(colorScheme, i, j), 1, dData[i][j].data, i + 1)
  {
    DatasetsLength(dData, colorScheme);
    var n := |dData| - 1;
    var init := dData[..n];
    DatasetsLength(init, colorScheme);
    if i < n {
      assert init[..i] == dData[..i];
      assert init[i] == dData[i];
      DatasetsAt(init, colorScheme, i, j);
    } else {
      assert dData[..i] == init;
    }
  }

  lemma {:induction false} DatasetsLength<D>(dData: seq<seq<Series<D>>>, colorScheme: seq<seq<string>>)
    requires Datasets(dData, colorScheme).Ok?
    ensures |Datasets(dData, colorScheme).value| == Total(dData)
  {
    if dData != [] {
      DatasetsLength(dData[..|dData| - 1], colorScheme);
    }
  }

  /** Once a prefix of the groups throws, the whole call throws the same. */
  lemma {:induction false} ThrowPersists<D>(dData: seq<seq<Series<D>>>, colorScheme: seq<seq<string>>, k: nat)
    requires k <= |dData|
    requires Datasets(dData[..k], colorScheme).Err?
    ensures Datasets(dData, colorScheme) == Datasets(dData[..k], colorScheme)
    decreases |dData| - k
  {
    if k < |dData| {
      assert dData[..k + 1][..k] == dData[..k];
      ThrowPersists(dData, colorScheme, k + 1);
    } else {
      assert dData[..k] == dData;
    }
  }

  /** The nested loops of `createChartDatasets`. */
  method CreateChartDatasets<D>(dData: seq<seq<Series<D>>>, colorScheme: seq<seq<string>>)
    returns (r: Result<seq<Dataset<D>>, TypeError>)
    ensures r == Datasets(dData, colorScheme)
  {
    var datasets: seq<Dataset<D>> := [];
    assert dData[..0] == [];
    for i := 0 to |dData|
      invariant Datasets(dData[..i], colorScheme) == Ok(datasets)
    {
      var group := dData[i];
      ghost var before := datasets;
      assert dData[..i + 1][..i] == dData[..i];
      var index := 0;
      while index < |group|
        invariant 0 <= index <= |group|
        invariant datasets == before + GroupDatasets(group[..index], i, colorScheme)
        invariant index > 0 ==> i < |colorScheme|
      {
        if i >= |colorScheme| {
          ThrowPersists(dData, colorScheme, i + 1);
          return Err(ColorGroupUndefined(i));
        }
        var color := if index < |colorScheme[i]| then Some(colorScheme[i][index]) else None;
        var title := group[index].title;
        datasets := datasets + [Dataset(title, color, color, 1, group[index].data, i + 1)];
        assert GroupDatasets(group[..index + 1], i, colorScheme)
               == GroupDatasets(group[..index], i, colorScheme) + [MakeDataset(group[index], i, index, colorScheme)];
        index := index + 1;
      }
      assert group[..index] == group;
      assert dData[..i + 1][i] == group;
      assert Datasets(dData[..i + 1], colorScheme) == Ok(before + GroupDatasets(group, i, colorScheme));
    }
    assert dData[..|dData|] == dData;
    return Ok(datasets);
  }
}
