/**
 * The step table that `createROCrate` builds from the executed runs of a project:
 * one entry per run, keyed by the run's object id, holding the composite step
 * class, the label, the joined summary and the typed input and output ports.
 */
module StepTable {
  import opened Wrappers
  import opened PyDict
  import PyStr

  /** An input attribute of a run: a reference to another object, or a plain attribute. */
  datatype InputAttr =
    | Ref(uniqueId: string, targetClassName: string)
    | Plain(objName: string, className: string)

  /** An output attribute of a run: its attribute name and its object class name. */
  datatype OutputAttr = OutputAttr(objName: string, className: string)

  /**
   * What the translation reads of one executed run: `object.id`, `object.className`
   * and `object.label` (here `title`) of its definition dictionary, the lines of its summary, and
   * its input and output attributes in iteration order.
   */
  datatype Run = Run(
    id: string,
    className: string,
    title: string,
    summary: seq<string>,
    inputs: seq<InputAttr>,
    outputs: seq<OutputAttr>)

  /** An input port; `source` is absent until the linkage pass finds its producer. */
  datatype Input = Input(id: string, cls: string, source: Option<string>)

  datatype Output = Output(id: string, cls: string)

  datatype Step = Step(
    cls: string,
    title: string,
    summary: string,
    inputs: seq<Input>,
    outputs: seq<Output>)

  /** The `workflow` dict: run id to step, in insertion order. */
  type Table = Dict<Step>

  /** The composite step class `<id>_<className>`. */
  function StepClass(id: string, className: string): string {
    id + "_" + className
  }

  /** The id of an input port: a reference drops the last dotted part of its unique id. */
  function InputOf(a: InputAttr): Input {
    match a
    case Ref(uniqueId, target) => Input(PyStr.RSplitHead(uniqueId, '.'), target, None)
    case Plain(name, className) => Input(name, className, None)
  }

  function OutputOf(a: OutputAttr): Output {
    Output(a.objName, a.className)
  }

  /** The table entry of one run, before linkage. */
  function StepOf(r: Run): Step {
    Step(
      StepClass(r.id, r.className),
      r.title,
      PyStr.Join(r.summary, ", "),
      seq(|r.inputs|, j requires 0 <= j < |r.inputs| => InputOf(r.inputs[j])),
      seq(|r.outputs|, j requires 0 <= j < |r.outputs| => OutputOf(r.outputs[j])))
  }

  function RunPairs(runs: seq<Run>): seq<(string, Step)> {
    seq(|runs|, i requires 0 <= i < |runs| => (runs[i].id, StepOf(runs[i])))
  }

  /** The table the loop builds: each run assigned under its id, in run order. */
  function WorkflowOf(runs: seq<Run>): Table {
    FromPairs(RunPairs(runs))
  }

  /** The two loops that collect the ports of one run, in iteration order. */
  method PortsOf(run: Run) returns (inputs: seq<Input>, outputs: seq<Output>)
    ensures inputs == StepOf(run).inputs && outputs == StepOf(run).outputs
  {
    inputs := [];
    var j := 0;
    while j < |run.inputs|
      invariant 0 <= j <= |run.inputs|
      invariant |inputs| == j && forall k :: 0 <= k < j ==> inputs[k] == InputOf(run.inputs[k])
    {
      var a := run.inputs[j];
      var id := if a.Ref? then PyStr.RSplitHead(a.uniqueId, '.') else a.objName;
      var cls := if a.Ref? then a.targetClassName else a.className;
      inputs := inputs + [Input(id, cls, None)];
      j := j + 1;
    }
    outputs := [];
    j := 0;
    while j < |run.outputs|
      invariant 0 <= j <= |run.outputs|
      invariant |outputs| == j && forall k :: 0 <= k < j ==> outputs[k] == OutputOf(run.outputs[k])
    {
      outputs := outputs + [Output(run.outputs[j].objName, run.outputs[j].className)];
      j := j + 1;
    }
  }

  /**
   * The table-building loop. The ports of a run are collected before its entry is
   * assigned, which gives the same table as assigning first and appending after,
   * since nothing reads the entry in between.
   */
  method BuildWorkflow(runs: seq<Run>) returns (workflow: Table)
    ensures workflow == WorkflowOf(runs)
  {
    workflow := [];
    var i := 0;
    while i < |runs|
      invariant 0 <= i <= |runs|
      invariant workflow == FromPairs(RunPairs(runs[..i]))
    {
      var run := runs[i];
      var inputs, outputs := PortsOf(run);
      var step := Step(StepClass(run.id, run.className), run.title, PyStr.Join(run.summary, ", "), inputs, outputs);
      RunSnoc(runs, i);
      FromPairsSnoc(RunPairs(runs[..i]), (run.id, step));
      workflow := Assign(workflow, run.id, step);
      i := i + 1;
    }
    assert runs[..i] == runs;
  }

  lemma RunSnoc(runs: seq<Run>, i: int)
    requires 0 <= i < |runs|
    ensures RunPairs(runs[..i + 1]) == RunPairs(runs[..i]) + [(runs[i].id, StepOf(runs[i]))]
  {
    var a := RunPairs(runs[..i + 1]);
    var b := RunPairs(runs[..i]) + [(runs[i].id, StepOf(runs[i]))];
    forall k | 0 <= k < |a|
      ensures a[k] == b[k]
    {
      assert runs[..i + 1][k] == runs[k];
      if k < i {
        assert runs[..i][k] == runs[k];
      }
    }
  }

  /**
   * The composite class keeps steps apart as long as ids hold no underscore: the
   * id and the class name can be read back from it.
   */
  lemma StepClassInjective(id1: string, c1: string, id2: string, c2: string)
    requires '_' !in id1 && '_' !in id2
    requires StepClass(id1, c1) == StepClass(id2, c2)
    ensures id1 == id2 && c1 == c2
  {
    var s := StepClass(id1, c1);
    assert s[|id1|] == '_' && s[|id2|] == '_';
    assert forall m :: 0 <= m < |id1| ==> s[m] != '_' by {
      forall m | 0 <= m < |id1| ensures s[m] != '_' { assert s[m] == id1[m]; }
    }
    assert forall m :: 0 <= m < |id2| ==> s[m] != '_' by {
      forall m | 0 <= m < |id2| ensures s[m] != '_' { assert s[m] == id2[m]; }
    }
    assert |id1| == |id2|;
    assert id1 == s[..|id1|] && id2 == s[..|id2|];
    assert c1 == s[|id1| + 1..] && c2 == s[|id2| + 1..];
  }

  /** With an underscore in an id, two different runs can share a step class. */
  lemma StepClassCollision()
    ensures StepClass("1_A", "B") == StepClass("1", "A_B")
  {
  }

  /** `i` is the last run with id `id`. */
  ghost predicate LastRunWithId(runs: seq<Run>, id: string, i: int) {
    0 <= i < |runs| && runs[i].id == id && forall i' :: i < i' < |runs| ==> runs[i'].id != id
  }

  /**
   * The table holds each run id once, and under it the step of the last run with
   * that id; an id no run has is missing.
   */
  lemma WorkflowLookup(runs: seq<Run>, id: string)
    ensures UniqueKeys(WorkflowOf(runs))
    ensures id in Keys(WorkflowOf(runs)) <==> exists i :: 0 <= i < |runs| && runs[i].id == id
    ensures forall i :: LastRunWithId(runs, id, i) ==> Lookup(WorkflowOf(runs), id) == Some(StepOf(runs[i]))
  {
    var ps := RunPairs(runs);
    FromPairsKeys(ps, id);
    if exists i :: 0 <= i < |ps| && ps[i].0 == id {
      var i :| 0 <= i < |ps| && ps[i].0 == id;
      assert runs[i].id == id;
    }
    if exists i :: 0 <= i < |runs| && runs[i].id == id {
      var i :| 0 <= i < |runs| && runs[i].id == id;
      assert ps[i].0 == id;
    }
    forall i | LastRunWithId(runs, id, i)
      ensures Lookup(WorkflowOf(runs), id) == Some(StepOf(runs[i]))
    {
      assert LastWithKey(ps, id, i);
      FromPairsLast(ps, id, i);
    }
  }

  /** Every entry of the table is the step of a run stored under that run's id. */
  lemma WorkflowEntry(runs: seq<Run>, p: int) returns (i: int)
    requires 0 <= p < |WorkflowOf(runs)|
    ensures 0 <= i < |runs| && WorkflowOf(runs)[p] == (runs[i].id, StepOf(runs[i]))
  {
    var ps := RunPairs(runs);
    assert WorkflowOf(runs)[p] in ps;
    i :| 0 <= i < |ps| && ps[i] == WorkflowOf(runs)[p];
  }

  /** Before linkage no input has a source. */
  lemma WorkflowUnlinked(runs: seq<Run>)
    ensures forall p, j :: 0 <= p < |WorkflowOf(runs)| && 0 <= j < |WorkflowOf(runs)[p].1.inputs| ==>
      WorkflowOf(runs)[p].1.inputs[j].source == None
  {
    forall p, j | 0 <= p < |WorkflowOf(runs)| && 0 <= j < |WorkflowOf(runs)[p].1.inputs|
      ensures WorkflowOf(runs)[p].1.inputs[j].source == None
    {
      var i := WorkflowEntry(runs, p);
    }
  }

  /** When run ids hold no underscore, different entries have different step classes. */
  lemma WorkflowClassesDistinct(runs: seq<Run>)
    requires forall i :: 0 <= i < |runs| ==> '_' !in runs[i].id
    ensures forall p, q :: 0 <= p < q < |WorkflowOf(runs)| ==>
      WorkflowOf(runs)[p].1.cls != WorkflowOf(runs)[q].1.cls
  {
    var t := WorkflowOf(runs);
    forall p, q | 0 <= p < q < |t|
      ensures t[p].1.cls != t[q].1.cls
    {
      var i := WorkflowEntry(runs, p);
      var j := WorkflowEntry(runs, q);
      assert t[p].0 != t[q].0;
      if t[p].1.cls == t[q].1.cls {
        StepClassInjective(runs[i].id, runs[i].className, runs[j].id, runs[j].className);
      }
    }
  }
}
