/**
  The gathering of every method's Hallucinogen results into one nested table
  (collect_all_methods_results.py): the VCD metric files, the fixed AGLA
  table, the combined results, and their merge.  Reading and writing JSON and
  probing the file system are not part of this model: the metric files that
  exist are given as maps from (model, task) to their 'overall' entry.
*/
module CollectResults {

  /** The metric names of a metrics dictionary. */
  datatype Metric = Accuracy | Precision | Recall | F1 | YesProportion

  /** One metrics dictionary. */
  type Metrics = map<Metric, real>

  /** The method keys: 'baseline', 'vcd_only', 'agla_only' and 'combined'. */
  datatype Method = Baseline | VcdOnly | AglaOnly | Combined

  /** results[model][dataset][method]. */
  type Table = map<string, map<string, map<Method, Metrics>>>

  const Models: seq<string> := ["llava15", "llava16", "qwenvl"]
  const Tasks: seq<string> := ["identification", "localization", "visual_context", "counterfactual"]

  /** `f'hallucinogen_{task}'`. */
  function TaskKey(task: string): string {
    "hallucinogen_" + task
  }

  /** Different tasks give different dataset keys. */
  lemma TaskKeyInjective(s: string, t: string)
    ensures TaskKey(s) == TaskKey(t) ==> s == t
  {
    if TaskKey(s) == TaskKey(t) {
      var n := |"hallucinogen_"|;
      assert s == TaskKey(s)[n..];
      assert t == TaskKey(t)[n..];
    }
  }

  /** The four dataset keys differ: the task names start with different letters. */
  lemma TaskKeysDistinct()
    ensures DistinctKeys(Tasks)
  {
    var firsts := "ilvc";
    forall a | 0 <= a < |Tasks| ensures TaskKey(Tasks[a])[13] == firsts[a] {
      assert TaskKey(Tasks[a])[13] == Tasks[a][0];
    }
  }

  /** The 'overall' entry of a VCD metrics file, as fractions. */
  datatype Overall = Overall(accuracy: real, precision: real, recall: real, f1: real, yesProportion: real)

  /** Lines 35-48: the five metrics scaled to percentages. */
  function Percentages(o: Overall): Metrics {
    map[Accuracy := o.accuracy * 100.0, Precision := o.precision * 100.0, Recall := o.recall * 100.0,
        F1 := o.f1 * 100.0, YesProportion := o.yesProportion * 100.0]
  }

  /** Every metric is present, and a fraction in [0, 1] becomes a percentage in
      [0, 100]. */
  lemma PercentagesScale(o: Overall)
    ensures Percentages(o).Keys == {Accuracy, Precision, Recall, F1, YesProportion}
    ensures forall k :: k in Percentages(o) ==> Percentages(o)[k] == 100.0 * MetricOf(o, k)
    ensures forall k :: 0.0 <= MetricOf(o, k) <= 1.0 ==> 0.0 <= Percentages(o)[k] <= 100.0
  {
  }

  /** The field of an 'overall' entry a metric name reads. */
  function MetricOf(o: Overall, k: Metric): real {
    match k
    case Accuracy => o.accuracy
    case Precision => o.precision
    case Recall => o.recall
    case F1 => o.f1
    case YesProportion => o.yesProportion
  }

  /** The VCD entry of a model and task, present iff both metric files exist. */
  function VcdEntry(baselineFiles: map<(string, string), Overall>, vcdFiles: map<(string, string), Overall>,
                    model: string, task: string): (e: map<Method, Metrics>)
    requires (model, task) in baselineFiles && (model, task) in vcdFiles
    ensures Baseline in e && VcdOnly in e
  {
    map[Baseline := Percentages(baselineFiles[(model, task)]), VcdOnly := Percentages(vcdFiles[(model, task)])]
  }

  /** collect_vcd_hallucinogen_results (lines 16-51). */
  method CollectVcdHallucinogenResults(baselineFiles: map<(string, string), Overall>, vcdFiles: map<(string, string), Overall>)
    returns (results: Table)
    ensures results.Keys == set m | m in Models
    ensures forall m, t :: m in Models && t in Tasks ==>
      (TaskKey(t) in results[m] <==> (m, t) in baselineFiles && (m, t) in vcdFiles)
    ensures forall m, t :: m in Models && t in Tasks && TaskKey(t) in results[m] ==>
      (m, t) in baselineFiles && (m, t) in vcdFiles && results[m][TaskKey(t)] == VcdEntry(baselineFiles, vcdFiles, m, t)
    ensures forall m, k :: m in results && k in results[m] ==> exists t :: t in Tasks && k == TaskKey(t)
  {
    results := map[];
    var i := 0;
    while i < |Models|
      invariant 0 <= i <= |Models|
      invariant results.Keys == set m | m in Models[..i]
      invariant forall m, t :: m in Models[..i] && t in Tasks ==>
        (TaskKey(t) in results[m] <==> (m, t) in baselineFiles && (m, t) in vcdFiles)
      invariant forall m, t :: m in Models[..i] && t in Tasks && TaskKey(t) in results[m] ==>
        (m, t) in baselineFiles && (m, t) in vcdFiles && results[m][TaskKey(t)] == VcdEntry(baselineFiles, vcdFiles, m, t)
      invariant forall m, k :: m in results && k in results[m] ==> exists t :: t in Tasks && k == TaskKey(t)
    {
      var model := Models[i];
      TaskKeysDistinct();
      var row := CollectModel(baselineFiles, vcdFiles, model, Tasks);
      results := results[model := row];
      assert Models[..i + 1] == Models[..i] + [model];
      i := i + 1;
    }
    assert Models[..|Models|] == Models;
  }

  /** Distinct task names give distinct dataset keys. */
  predicate DistinctKeys(tasks: seq<string>) {
    forall a, b :: 0 <= a < b < |tasks| ==> TaskKey(tasks[a]) != TaskKey(tasks[b])
  }

  /** The row of one model after the inner loop has run over `tasks`. */
  function VcdRow(baselineFiles: map<(string, string), Overall>, vcdFiles: map<(string, string), Overall>,
                  model: string, tasks: seq<string>): map<string, map<Method, Metrics>>
    decreases |tasks|
  {
    if |tasks| == 0 then map[]
    else
      var row := VcdRow(baselineFiles, vcdFiles, model, tasks[..|tasks| - 1]);
      var task := tasks[|tasks| - 1];
      if (model, task) in baselineFiles && (model, task) in vcdFiles
      then row[TaskKey(task) := VcdEntry(baselineFiles, vcdFiles, model, task)]
      else row
  }

  /** A task's key is in the row iff both of its metric files exist. */
  lemma {:induction false} VcdRowKeys(baselineFiles: map<(string, string), Overall>, vcdFiles: map<(string, string), Overall>,
                                      model: string, tasks: seq<string>, t: string)
    requires t in tasks
    ensures TaskKey(t) in VcdRow(baselineFiles, vcdFiles, model, tasks) <==> (model, t) in baselineFiles && (model, t) in vcdFiles
    decreases |tasks|
  {
    var init := tasks[..|tasks| - 1];
    var task := tasks[|tasks| - 1];
    assert t in init || t == task by {
      var a :| 0 <= a < |tasks| && tasks[a] == t;
      if a < |init| {
        assert init[a] == t;
      }
    }
    if t in init {
      VcdRowKeys(baselineFiles, vcdFiles, model, init, t);
    } else {
      AbsentTaskNotInRow(baselineFiles, vcdFiles, model, init, t);
    }
    TaskKeyInjective(t, task);
  }

  /** A task that is not in the list has no key in the row. */
  lemma {:induction false} AbsentTaskNotInRow(baselineFiles: map<(string, string), Overall>, vcdFiles: map<(string, string), Overall>,
                                              model: string, tasks: seq<string>, t: string)
    requires t !in tasks
    ensures TaskKey(t) !in VcdRow(baselineFiles, vcdFiles, model, tasks)
    decreases |tasks|
  {
    if |tasks| > 0 {
      var init := tasks[..|tasks| - 1];
      assert t !in init by {
        forall a | 0 <= a < |init|
          ensures init[a] != t
        {
          assert init[a] == tasks[a];
        }
      }
      AbsentTaskNotInRow(baselineFiles, vcdFiles, model, init, t);
      TaskKeyInjective(t, tasks[|tasks| - 1]);
    }
  }

  /** With distinct dataset keys a task's key holds that task's VCD entry. */
  lemma {:induction false} VcdRowValues(baselineFiles: map<(string, string), Overall>, vcdFiles: map<(string, string), Overall>,
                                        model: string, tasks: seq<string>, a: int)
    requires DistinctKeys(tasks) && 0 <= a < |tasks|
    requires (model, tasks[a]) in baselineFiles && (model, tasks[a]) in vcdFiles
    ensures TaskKey(tasks[a]) in VcdRow(baselineFiles, vcdFiles, model, tasks)
    ensures VcdRow(baselineFiles, vcdFiles, model, tasks)[TaskKey(tasks[a])] == VcdEntry(baselineFiles, vcdFiles, model, tasks[a])
    decreases |tasks|
  {
    var n := |tasks| - 1;
    var init := tasks[..n];
    if a < n {
      assert DistinctKeys(init);
      assert init[a] == tasks[a];
      assert TaskKey(tasks[a]) != TaskKey(tasks[n]);
      VcdRowValues(baselineFiles, vcdFiles, model, init, a);
    }
  }

  /** Every key of the row is a task's key. */
  lemma {:induction false} VcdRowOrigin(baselineFiles: map<(string, string), Overall>, vcdFiles: map<(string, string), Overall>,
                                        model: string, tasks: seq<string>, k: string)
    requires k in VcdRow(baselineFiles, vcdFiles, model, tasks)
    ensures exists t :: t in tasks && k == TaskKey(t)
    decreases |tasks|
  {
    var init := tasks[..|tasks| - 1];
    var task := tasks[|tasks| - 1];
    if k in VcdRow(baselineFiles, vcdFiles, model, init) {
      VcdRowOrigin(baselineFiles, vcdFiles, model, init, k);
      var t :| t in init && k == TaskKey(t);
      assert t in tasks;
    } else {
      assert k == TaskKey(task) && task in tasks;
    }
  }

  /** The three facts about a row, for every task. */
  lemma VcdRowContents(baselineFiles: map<(string, string), Overall>, vcdFiles: map<(string, string), Overall>,
                       model: string, tasks: seq<string>)
    requires DistinctKeys(tasks)
    ensures var row := VcdRow(baselineFiles, vcdFiles, model, tasks);
      && (forall t :: t in tasks ==> (TaskKey(t) in row <==> (model, t) in baselineFiles && (model, t) in vcdFiles))
      && (forall t :: t in tasks && TaskKey(t) in row ==>
            (model, t) in baselineFiles && (model, t) in vcdFiles && row[TaskKey(t)] == VcdEntry(baselineFiles, vcdFiles, model, t))
      && (forall k :: k in row ==> exists t :: t in tasks && k == TaskKey(t))
  {
    var row := VcdRow(baselineFiles, vcdFiles, model, tasks);
    forall t | t in tasks
      ensures TaskKey(t) in row <==> (model, t) in baselineFiles && (model, t) in vcdFiles
      ensures TaskKey(t) in row ==>
        (model, t) in baselineFiles && (model, t) in vcdFiles && row[TaskKey(t)] == VcdEntry(baselineFiles, vcdFiles, model, t)
    {
      VcdRowKeys(baselineFiles, vcdFiles, model, tasks, t);
      if TaskKey(t) in row {
        var a :| 0 <= a < |tasks| && tasks[a] == t;
        VcdRowValues(baselineFiles, vcdFiles, model, tasks, a);
      }
    }
    forall k | k in row ensures exists t :: t in tasks && k == TaskKey(t) {
      VcdRowOrigin(baselineFiles, vcdFiles, model, tasks, k);
    }
  }

  /** The inner loop of lines 26-49 for one model, over the task list. */
  method CollectModel(baselineFiles: map<(string, string), Overall>, vcdFiles: map<(string, string), Overall>,
                      model: string, tasks: seq<string>)
    returns (row: map<string, map<Method, Metrics>>)
    requires DistinctKeys(tasks)
    ensures forall t :: t in tasks ==> (TaskKey(t) in row <==> (model, t) in baselineFiles && (model, t) in vcdFiles)
    ensures forall t :: t in tasks && TaskKey(t) in row ==>
      (model, t) in baselineFiles && (model, t) in vcdFiles && row[TaskKey(t)] == VcdEntry(baselineFiles, vcdFiles, model, t)
    ensures forall k :: k in row ==> exists t :: t in tasks && k == TaskKey(t)
  {
    row := map[];
    var j := 0;
    while j < |tasks|
      invariant 0 <= j <= |tasks|
      invariant row == VcdRow(baselineFiles, vcdFiles, model, tasks[..j])
    {
      assert tasks[..j + 1][..j] == tasks[..j];
      var task := tasks[j];
      if (model, task) in baselineFiles && (model, task) in vcdFiles {
        row := row[TaskKey(task) := VcdEntry(baselineFiles, vcdFiles, model, task)];
      }
      j := j + 1;
    }
    assert tasks[..|tasks|] == tasks;
    VcdRowContents(baselineFiles, vcdFiles, model, tasks);
  }

  /** collect_combined_results (lines 116-130): every model of the loaded data,
      with only the datasets that have a 'combined' entry, and only that entry. */
  method CollectCombinedResults(data: Table) returns (results: Table)
    ensures results.Keys == data.Keys
    ensures forall m :: m in results ==> results[m].Keys == set d | d in data[m] && Combined in data[m][d]
    ensures forall m, d :: m in results && d in results[m] ==> results[m][d] == map[Combined := data[m][d][Combined]]
  {
    results := map[];
    var models := data.Keys;
    while models != {}
      invariant models <= data.Keys
      invariant results.Keys == data.Keys - models
      invariant forall m :: m in results ==> results[m].Keys == set d | d in data[m] && Combined in data[m][d]
      invariant forall m, d :: m in results && d in results[m] ==> results[m][d] == map[Combined := data[m][d][Combined]]
      decreases models
    {
      var modelKey :| modelKey in models;
      var datasets := data[modelKey];
      var row := CombinedRow(datasets);
      results := results[modelKey := row];
      models := models - {modelKey};
    }
  }

  /** The inner loop of lines 124-128 for one model. */
  method CombinedRow(datasets: map<string, map<Method, Metrics>>) returns (row: map<string, map<Method, Metrics>>)
    ensures row.Keys == set d | d in datasets && Combined in datasets[d]
    ensures forall d :: d in row ==> row[d] == map[Combined := datasets[d][Combined]]
  {
    row := map[];
    var keys := datasets.Keys;
    while keys != {}
      invariant keys <= datasets.Keys
      invariant row.Keys == set d | d in datasets.Keys - keys && Combined in datasets[d]
      invariant forall d :: d in row ==> row[d] == map[Combined := datasets[d][Combined]]
      decreases keys
    {
      var datasetKey :| datasetKey in keys;
      var methods := datasets[datasetKey];
      if Combined in methods {
        row := row[datasetKey := map[Combined := methods[Combined]]];
      }
      keys := keys - {datasetKey};
    }
  }

  /** results[model][dataset] exists. */
  predicate Has(t: Table, model: string, dataset: string) {
    model in t && dataset in t[model]
  }

  /** The entries merge_all_results reads exist where it reads them. */
  ghost predicate Readable(vcd: Table, agla: Table, combined: Table) {
    && (forall m, d :: Has(vcd, m, d) ==> Baseline in vcd[m][d] && VcdOnly in vcd[m][d])
    && (forall m, d :: Has(agla, m, d) ==> AglaOnly in agla[m][d])
    && (forall m, d :: Has(combined, m, d) ==> Combined in combined[m][d])
  }

  /** Lines 155-158: the baseline and VCD entries, when the VCD table has the dataset. */
  function VcdPart(vcd: Table, m: string, d: string): (e: map<Method, Metrics>)
    requires Has(vcd, m, d) ==> Baseline in vcd[m][d] && VcdOnly in vcd[m][d]
    ensures e.Keys == if Has(vcd, m, d) then {Baseline, VcdOnly} else {}
    ensures Has(vcd, m, d) ==> e[Baseline] == vcd[m][d][Baseline] && e[VcdOnly] == vcd[m][d][VcdOnly]
  {
    if Has(vcd, m, d) then map[Baseline := vcd[m][d][Baseline], VcdOnly := vcd[m][d][VcdOnly]] else map[]
  }

  /** Adds `key` from table `t` when it has the dataset. */
  function AddPart(e: map<Method, Metrics>, t: Table, m: string, d: string, key: Method): (r: map<Method, Metrics>)
    requires Has(t, m, d) ==> key in t[m][d]
    ensures r.Keys == if Has(t, m, d) then e.Keys + {key} else e.Keys
    ensures Has(t, m, d) ==> r[key] == t[m][d][key]
    ensures forall k :: k in e && k != key ==> r[k] == e[k]
  {
    if Has(t, m, d) then e[key := t[m][d][key]] else e
  }

  /** The merged entry of one model and dataset (lines 153-166). */
  function MergedEntry(vcd: Table, agla: Table, combined: Table, m: string, d: string): (e: map<Method, Metrics>)
    requires Readable(vcd, agla, combined)
    ensures Baseline in e <==> Has(vcd, m, d)
    ensures VcdOnly in e <==> Has(vcd, m, d)
    ensures AglaOnly in e <==> Has(agla, m, d)
    ensures Combined in e <==> Has(combined, m, d)
    ensures Has(vcd, m, d) ==> e[Baseline] == vcd[m][d][Baseline] && e[VcdOnly] == vcd[m][d][VcdOnly]
    ensures Has(agla, m, d) ==> e[AglaOnly] == agla[m][d][AglaOnly]
    ensures Has(combined, m, d) ==> e[Combined] == combined[m][d][Combined]
  {
    AddPart(AddPart(VcdPart(vcd, m, d), agla, m, d, AglaOnly), combined, m, d, Combined)
  }

  /** The four dataset keys of the merged table. */
  function HallucinogenKeys(): set<string> {
    set t | t in Tasks :: TaskKey(t)
  }

  /** merge_all_results (lines 143-168) on the three collected tables. */
  method Merge(vcd: Table, agla: Table, combined: Table) returns (allResults: Table)
    requires Readable(vcd, agla, combined)
    ensures allResults.Keys == set m | m in Models
    ensures forall m :: m in allResults ==> allResults[m].Keys == HallucinogenKeys()
    ensures forall m, d :: m in allResults && d in allResults[m] ==> allResults[m][d] == MergedEntry(vcd, agla, combined, m, d)
  {
    allResults := map[];
    var i := 0;
    while i < |Models|
      invariant 0 <= i <= |Models|
      invariant allResults.Keys == set m | m in Models[..i]
      invariant forall m :: m in allResults ==> allResults[m].Keys == HallucinogenKeys()
      invariant forall m, d :: m in allResults && d in allResults[m] ==> allResults[m][d] == MergedEntry(vcd, agla, combined, m, d)
    {
      var model := Models[i];
      var row := MergeRow(vcd, agla, combined, model);
      allResults := allResults[model := row];
      assert Models[..i + 1] == Models[..i] + [model];
      i := i + 1;
    }
    assert Models[..|Models|] == Models;
  }

  /** The inner loop of lines 149-166 for one model. */
  method MergeRow(vcd: Table, agla: Table, combined: Table, model: string) returns (row: map<string, map<Method, Metrics>>)
    requires Readable(vcd, agla, combined)
    ensures row.Keys == HallucinogenKeys()
    ensures forall d :: d in row ==> row[d] == MergedEntry(vcd, agla, combined, model, d)
  {
    row := map[];
    var j := 0;
    while j < |Tasks|
      invariant 0 <= j <= |Tasks|
      invariant row.Keys == set t | t in Tasks[..j] :: TaskKey(t)
      invariant forall d :: d in row ==> row[d] == MergedEntry(vcd, agla, combined, model, d)
    {
      var datasetKey := TaskKey(Tasks[j]);
      var entry := MergedEntry(vcd, agla, combined, model, datasetKey);
      row := row[datasetKey := entry];
      assert Tasks[..j + 1] == Tasks[..j] + [Tasks[j]];
      j := j + 1;
    }
    assert Tasks[..|Tasks|] == Tasks;
  }

  /** merge_all_results: collect the VCD and combined sources, then merge them
      with the AGLA table. */
  method MergeAllResults(baselineFiles: map<(string, string), Overall>, vcdFiles: map<(string, string), Overall>,
                         aglaResults: Table, combinedData: Table) returns (allResults: Table)
    requires forall m, d :: Has(aglaResults, m, d) ==> AglaOnly in aglaResults[m][d]
    ensures allResults.Keys == set m | m in Models
    ensures forall m :: m in allResults ==> allResults[m].Keys == HallucinogenKeys()
    ensures forall m, t :: m in Models && t in Tasks ==> m in allResults && TaskKey(t) in allResults[m]
    ensures forall m, t :: m in Models && t in Tasks ==>
      Provenance(baselineFiles, vcdFiles, aglaResults, combinedData, m, t, allResults[m][TaskKey(t)])
  {
    var vcd := CollectVcdHallucinogenResults(baselineFiles, vcdFiles);
    var combined := CollectCombinedResults(combinedData);
    VcdReadable(baselineFiles, vcdFiles, vcd);
    allResults := Merge(vcd, aglaResults, combined);
    forall m, t | m in Models && t in Tasks
      ensures m in allResults && TaskKey(t) in allResults[m]
      ensures Provenance(baselineFiles, vcdFiles, aglaResults, combinedData, m, t, allResults[m][TaskKey(t)])
    {
      assert TaskKey(t) in HallucinogenKeys();
      EntryProvenance(baselineFiles, vcdFiles, aglaResults, combinedData, vcd, combined, m, t);
    }
  }

  /** Where each method of a merged entry comes from: the baseline (as
      percentages) iff both VCD metric files exist, AGLA iff the AGLA table has
      the dataset, combined iff the combined data has a 'combined' entry; each
      with the value of its own source. */
  predicate Provenance(baselineFiles: map<(string, string), Overall>, vcdFiles: map<(string, string), Overall>,
                       aglaResults: Table, combinedData: Table, m: string, t: string, e: map<Method, Metrics>) {
    && (Baseline in e <==> (m, t) in baselineFiles && (m, t) in vcdFiles)
    && (Baseline in e ==> (m, t) in baselineFiles && e[Baseline] == Percentages(baselineFiles[(m, t)]))
    && (VcdOnly in e <==> (m, t) in baselineFiles && (m, t) in vcdFiles)
    && (VcdOnly in e ==> (m, t) in vcdFiles && e[VcdOnly] == Percentages(vcdFiles[(m, t)]))
    && (AglaOnly in e <==> Has(aglaResults, m, TaskKey(t)))
    && (AglaOnly in e ==> Has(aglaResults, m, TaskKey(t)) && AglaOnly in aglaResults[m][TaskKey(t)]
                          && e[AglaOnly] == aglaResults[m][TaskKey(t)][AglaOnly])
    && (Combined in e <==> Has(combinedData, m, TaskKey(t)) && Combined in combinedData[m][TaskKey(t)])
    && (Combined in e ==> Has(combinedData, m, TaskKey(t)) && Combined in combinedData[m][TaskKey(t)]
                          && e[Combined] == combinedData[m][TaskKey(t)][Combined])
  }

  /** The collected VCD table holds both of its methods wherever it has a dataset. */
  lemma VcdReadable(baselineFiles: map<(string, string), Overall>, vcdFiles: map<(string, string), Overall>, vcd: Table)
    requires vcd.Keys == set m | m in Models
    requires forall m, t :: m in Models && t in Tasks && TaskKey(t) in vcd[m] ==>
      (m, t) in baselineFiles && (m, t) in vcdFiles && vcd[m][TaskKey(t)] == VcdEntry(baselineFiles, vcdFiles, m, t)
    requires forall m, k :: m in vcd && k in vcd[m] ==> exists t :: t in Tasks && k == TaskKey(t)
    ensures forall m, d :: Has(vcd, m, d) ==> Baseline in vcd[m][d] && VcdOnly in vcd[m][d]
  {
    forall m, d | Has(vcd, m, d) ensures Baseline in vcd[m][d] && VcdOnly in vcd[m][d] {
      var t :| t in Tasks && d == TaskKey(t);
      assert m in Models;
      assert vcd[m][TaskKey(t)] == VcdEntry(baselineFiles, vcdFiles, m, t);
    }
  }

  /** The merged entry of a model and task has the provenance of its sources. */
  lemma EntryProvenance(baselineFiles: map<(string, string), Overall>, vcdFiles: map<(string, string), Overall>,
                        aglaResults: Table, combinedData: Table, vcd: Table, combined: Table, m: string, t: string)
    requires Readable(vcd, aglaResults, combined)
    requires m in Models && t in Tasks && vcd.Keys == set m | m in Models
    requires forall m, t :: m in Models && t in Tasks ==>
      (TaskKey(t) in vcd[m] <==> (m, t) in baselineFiles && (m, t) in vcdFiles)
    requires forall m, t :: m in Models && t in Tasks && TaskKey(t) in vcd[m] ==>
      (m, t) in baselineFiles && (m, t) in vcdFiles && vcd[m][TaskKey(t)] == VcdEntry(baselineFiles, vcdFiles, m, t)
    requires combined.Keys == combinedData.Keys
    requires forall m :: m in combined ==> combined[m].Keys == set d | d in combinedData[m] && Combined in combinedData[m][d]
    requires forall m, d :: m in combined && d in combined[m] ==> combined[m][d] == map[Combined := combinedData[m][d][Combined]]
    ensures Provenance(baselineFiles, vcdFiles, aglaResults, combinedData, m, t, MergedEntry(vcd, aglaResults, combined, m, TaskKey(t)))
  {
    var d := TaskKey(t);
    var e := MergedEntry(vcd, aglaResults, combined, m, d);
    assert Has(vcd, m, d) <==> (m, t) in baselineFiles && (m, t) in vcdFiles;
    if Has(vcd, m, d) {
      assert vcd[m][d] == VcdEntry(baselineFiles, vcdFiles, m, t);
    }
    assert Has(combined, m, d) <==> Has(combinedData, m, d) && Combined in combinedData[m][d];
    if Has(combined, m, d) {
      assert combined[m][d] == map[Combined := combinedData[m][d][Combined]];
    }
  }
}
