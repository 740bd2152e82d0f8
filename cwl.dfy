/**
 * The CWL class: a workflow description with a version, a label, a doc string and
 * the step table, rendered into a CWL v1.1 `Workflow` document whose steps carry
 * ports annotated with cryo-EM ontology formats.
 */
module Cwl {
  import opened Wrappers
  import opened PyDict
  import opened StepTable
  import Ontology

  /** A YAML value as the document holds it: a string, a list, or a mapping in insertion order. */
  datatype Node = Str(s: string) | List(items: seq<Node>) | Map(entries: Dict<Node>)

  /** The exceptions that building the document can raise. */
  datatype Error =
    | StepsHasNoKeys  // `steps` is still the class default, a list: `.keys()` raises AttributeError
    | MissingSource   // an input the linkage did not reach: `input['source']` raises KeyError

  const DefaultVersion: string := "v1.1"

  /** The value under `key` when `n` is a mapping that has it. */
  function Field(n: Node, key: string): Option<Node> {
    if n.Map? then Lookup(n.entries, key) else None
  }

  /** The run-spec entry of a port: a file with the ontology format of its class. */
  function PortType(cls: string): Node {
    Map([("type", Str("File")), ("format", Str(Ontology.Format(cls)))])
  }

  /** Every input has a source. */
  predicate AllLinked(xs: seq<Input>) {
    forall j :: 0 <= j < |xs| ==> xs[j].source.Some?
  }

  predicate StepLinked(s: Step) {
    AllLinked(s.inputs)
  }

  predicate TableLinked(t: Table) {
    forall i :: 0 <= i < |t| ==> StepLinked(t[i].1)
  }

  /** The `in` entries: input id to its source. */
  function InPairs(xs: seq<Input>): seq<(string, Node)>
    requires AllLinked(xs)
  {
    seq(|xs|, j requires 0 <= j < |xs| && xs[j].source.Some? =>
      (xs[j].id, Map([("source", Str(xs[j].source.value))])))
  }

  /** The run-spec `inputs` entries: input id to its type. */
  function InTypePairs(xs: seq<Input>): seq<(string, Node)> {
    seq(|xs|, j requires 0 <= j < |xs| => (xs[j].id, PortType(xs[j].cls)))
  }

  /** The run-spec `outputs` entries: output id to its type. */
  function OutTypePairs(ys: seq<Output>): seq<(string, Node)> {
    seq(|ys|, l requires 0 <= l < |ys| => (ys[l].id, PortType(ys[l].cls)))
  }

  /** The `out` list: the output ids in order. */
  function OutIds(ys: seq<Output>): seq<Node> {
    seq(|ys|, l requires 0 <= l < |ys| => Str(ys[l].id))
  }

  /** The mapping of one formatted step, with its keys in the order they are assigned. */
  function StepNode(title: string, summary: string, inField: Node, out: seq<Node>, runInputs: Node, runOutputs: Node): Node {
    Map([
      ("label", Str(title)),
      ("doc", Str(summary)),
      ("run", Map([
        ("class", Str("CommandLineTool")),
        ("baseCommand", List([])),
        ("inputs", runInputs),
        ("outputs", runOutputs)])),
      ("out", List(out)),
      ("in", inField)])
  }

  /** The step's `in`: an empty list without inputs, else a mapping from input id to source. */
  function InField(xs: seq<Input>): Node
    requires AllLinked(xs)
  {
    if |xs| == 0 then List([]) else Map(FromPairs(InPairs(xs)))
  }

  /** The run-spec `inputs`: an empty list without inputs, else a mapping from input id to type. */
  function RunInputs(xs: seq<Input>): Node {
    if |xs| == 0 then List([]) else Map(FromPairs(InTypePairs(xs)))
  }

  /** The run-spec `outputs`: an empty list without outputs, else a mapping from output id to type. */
  function RunOutputs(ys: seq<Output>): Node {
    if |ys| == 0 then List([]) else Map(FromPairs(OutTypePairs(ys)))
  }

  /** A step as `format_steps` renders it; every input must have a source. */
  function RenderStep(s: Step): Node
    requires StepLinked(s)
  {
    assert AllLinked(s.inputs);
    StepNode(s.title, s.summary, InField(s.inputs), OutIds(s.outputs), RunInputs(s.inputs), RunOutputs(s.outputs))
  }

  lemma InSnoc(xs: seq<Input>, j: int)
    requires 0 <= j < |xs| && AllLinked(xs[..j]) && xs[j].source.Some?
    ensures AllLinked(xs[..j + 1])
    ensures InPairs(xs[..j + 1]) == InPairs(xs[..j]) + [(xs[j].id, Map([("source", Str(xs[j].source.value))]))]
    ensures InTypePairs(xs[..j + 1]) == InTypePairs(xs[..j]) + [(xs[j].id, PortType(xs[j].cls))]
  {
  }

  /** The loop over one step's inputs, filling `in` and the run-spec `inputs` together. */
  method FormatInputs(xs: seq<Input>) returns (r: Result<(Node, Node), Error>)
    ensures !AllLinked(xs) ==> r == Failure(MissingSource)
    ensures AllLinked(xs) ==> r == Success((InField(xs), RunInputs(xs)))
  {
    if |xs| == 0 {
      return Success((List([]), List([])));
    }
    var ins: Dict<Node> := [];
    var insTyped: Dict<Node> := [];
    var j := 0;
    while j < |xs|
      invariant 0 <= j <= |xs|
      invariant AllLinked(xs[..j])
      invariant ins == FromPairs(InPairs(xs[..j]))
      invariant insTyped == FromPairs(InTypePairs(xs[..j]))
    {
      var x := xs[j];
      if x.source.None? {
        return Failure(MissingSource);
      }
      var entry := Map([("source", Str(x.source.value))]);
      InSnoc(xs, j);
      FromPairsSnoc(InPairs(xs[..j]), (x.id, entry));
      FromPairsSnoc(InTypePairs(xs[..j]), (x.id, PortType(x.cls)));
      ins := Assign(ins, x.id, entry);
      insTyped := Assign(insTyped, x.id, PortType(x.cls));
      j := j + 1;
    }
    assert xs[..j] == xs;
    r := Success((Map(ins), Map(insTyped)));
  }

  lemma OutSnoc(ys: seq<Output>, l: int)
    requires 0 <= l < |ys|
    ensures OutTypePairs(ys[..l + 1]) == OutTypePairs(ys[..l]) + [(ys[l].id, PortType(ys[l].cls))]
    ensures OutIds(ys[..l + 1]) == OutIds(ys[..l]) + [Str(ys[l].id)]
  {
  }

  /** The loop over one step's outputs, filling `out` and the run-spec `outputs` together. */
  method FormatOutputs(ys: seq<Output>) returns (out: seq<Node>, runOutputs: Node)
    ensures out == OutIds(ys) && runOutputs == RunOutputs(ys)
  {
    out := [];
    if |ys| == 0 {
      return [], List([]);
    }
    var outsTyped: Dict<Node> := [];
    var l := 0;
    while l < |ys|
      invariant 0 <= l <= |ys|
      invariant out == OutIds(ys[..l])
      invariant outsTyped == FromPairs(OutTypePairs(ys[..l]))
    {
      var y := ys[l];
      OutSnoc(ys, l);
      FromPairsSnoc(OutTypePairs(ys[..l]), (y.id, PortType(y.cls)));
      out := out + [Str(y.id)];
      outsTyped := Assign(outsTyped, y.id, PortType(y.cls));
      l := l + 1;
    }
    assert ys[..l] == ys;
    runOutputs := Map(outsTyped);
  }

  function StepPairs(t: Table): seq<(string, Node)>
    requires TableLinked(t)
  {
    seq(|t|, i requires 0 <= i < |t| && StepLinked(t[i].1) => (t[i].1.cls, RenderStep(t[i].1)))
  }

  lemma StepSnoc(t: Table, i: int)
    requires 0 <= i < |t| && TableLinked(t[..i]) && StepLinked(t[i].1)
    ensures TableLinked(t[..i + 1])
    ensures StepPairs(t[..i + 1]) == StepPairs(t[..i]) + [(t[i].1.cls, RenderStep(t[i].1))]
  {
    var u := t[..i + 1];
    var v := t[..i];
    assert TableLinked(u) by {
      forall k | 0 <= k < |u|
        ensures StepLinked(u[k].1)
      {
        if k < i {
          assert u[k] == v[k];
        }
      }
    }
    var a := StepPairs(u);
    var pv := StepPairs(v);
    var b := pv + [(t[i].1.cls, RenderStep(t[i].1))];
    forall k | 0 <= k < |a|
      ensures a[k] == b[k]
    {
      if k < i {
        assert u[k] == v[k];
        assert a[k] == (u[k].1.cls, RenderStep(u[k].1));
        assert b[k] == pv[k] == (v[k].1.cls, RenderStep(v[k].1));
      } else {
        assert u[k] == t[i];
      }
    }
    assert a == b;
  }

  /** What `format_steps` returns, or raises, for a step table. */
  function RenderSteps(t: Table): Result<Node, Error> {
    if |t| == 0 then Success(List([]))
    else if !TableLinked(t) then Failure(MissingSource)
    else Success(Map(FromPairs(StepPairs(t))))
  }

  /** The document `create` writes out. */
  function WorkflowDocument(version: string, title: string, doc: string, steps: Node): Node {
    Map([
      ("cwlVersion", Str(version)),
      ("class", Str("Workflow")),
      ("label", Str(title)),
      ("doc", Str(doc)),
      ("inputs", List([])),
      ("outputs", List([])),
      ("steps", steps),
      ("$namespaces", Map([(Ontology.Name, Str(Ontology.Url))]))])
  }

  /** `j` is the last input of `xs` with id `id`. */
  ghost predicate LastInput(xs: seq<Input>, id: string, j: int) {
    0 <= j < |xs| && xs[j].id == id && forall j' :: j < j' < |xs| ==> xs[j'].id != id
  }

  /** `l` is the last output of `ys` with id `id`. */
  ghost predicate LastOutput(ys: seq<Output>, id: string, l: int) {
    0 <= l < |ys| && ys[l].id == id && forall l' :: l < l' < |ys| ==> ys[l'].id != id
  }

  /**
   * A step's `in` has an entry exactly for the ids of its inputs (none at all when it
   * has no input); when an id repeats, the last input with that id gives the source.
   */
  lemma InputEntries(xs: seq<Input>, id: string)
    requires AllLinked(xs)
    ensures Field(InField(xs), id).Some? <==> exists j :: 0 <= j < |xs| && xs[j].id == id
    ensures forall j :: LastInput(xs, id, j) ==>
      Field(InField(xs), id) == Some(Map([("source", Str(xs[j].source.value))]))
  {
    if |xs| > 0 {
      var ps := InPairs(xs);
      LookupKeys(FromPairs(ps), id);
      FromPairsKeys(ps, id);
      if exists j :: 0 <= j < |xs| && xs[j].id == id {
        var j :| 0 <= j < |xs| && xs[j].id == id;
        assert ps[j].0 == id;
      }
      if exists j :: 0 <= j < |ps| && ps[j].0 == id {
        var j :| 0 <= j < |ps| && ps[j].0 == id;
        assert xs[j].id == id;
      }
      forall j | LastInput(xs, id, j)
        ensures Field(InField(xs), id) == Some(Map([("source", Str(xs[j].source.value))]))
      {
        assert LastWithKey(ps, id, j);
        FromPairsLast(ps, id, j);
      }
    }
  }

  /**
   * A step's run-spec `inputs` has an entry exactly for the ids of its inputs (none at
   * all when it has no input), typed after the last input with that id.
   */
  lemma RunInputEntries(xs: seq<Input>, id: string)
    ensures Field(RunInputs(xs), id).Some? <==> exists j :: 0 <= j < |xs| && xs[j].id == id
    ensures forall j :: LastInput(xs, id, j) ==> Field(RunInputs(xs), id) == Some(PortType(xs[j].cls))
  {
    if |xs| > 0 {
      var qs := InTypePairs(xs);
      LookupKeys(FromPairs(qs), id);
      FromPairsKeys(qs, id);
      if exists j :: 0 <= j < |xs| && xs[j].id == id {
        var j :| 0 <= j < |xs| && xs[j].id == id;
        assert qs[j].0 == id;
      }
      if exists j :: 0 <= j < |qs| && qs[j].0 == id {
        var j :| 0 <= j < |qs| && qs[j].0 == id;
        assert xs[j].id == id;
      }
      forall j | LastInput(xs, id, j)
        ensures Field(RunInputs(xs), id) == Some(PortType(xs[j].cls))
      {
        assert LastWithKey(qs, id, j);
        FromPairsLast(qs, id, j);
      }
    }
  }

  /**
   * A step's run-spec `outputs` has an entry exactly for the ids of its outputs (none
   * at all when it has no output), typed after the last output with that id.
   */
  lemma OutputEntries(ys: seq<Output>, id: string)
    ensures Field(RunOutputs(ys), id).Some? <==> exists l :: 0 <= l < |ys| && ys[l].id == id
    ensures forall l :: LastOutput(ys, id, l) ==> Field(RunOutputs(ys), id) == Some(PortType(ys[l].cls))
  {
    if |ys| > 0 {
      var qs := OutTypePairs(ys);
      LookupKeys(FromPairs(qs), id);
      FromPairsKeys(qs, id);
      if exists l :: 0 <= l < |ys| && ys[l].id == id {
        var l :| 0 <= l < |ys| && ys[l].id == id;
        assert qs[l].0 == id;
      }
      if exists l :: 0 <= l < |qs| && qs[l].0 == id {
        var l :| 0 <= l < |qs| && qs[l].0 == id;
        assert ys[l].id == id;
      }
      forall l | LastOutput(ys, id, l)
        ensures Field(RunOutputs(ys), id) == Some(PortType(ys[l].cls))
      {
        assert LastWithKey(qs, id, l);
        FromPairsLast(qs, id, l);
      }
    }
  }

  /**
   * A rendered step is the mapping `label`, `doc`, `run`, `out`, `in`, in this order;
   * its run spec is a command-line tool with an empty base command, and `out` lists
   * the output ids in order.
   */
  lemma RenderStepShape(s: Step)
    requires StepLinked(s)
    ensures RenderStep(s).Map? && Keys(RenderStep(s).entries) == ["label", "doc", "run", "out", "in"]
    ensures Field(RenderStep(s), "label") == Some(Str(s.title))
    ensures Field(RenderStep(s), "doc") == Some(Str(s.summary))
    ensures Field(RenderStep(s), "out") == Some(List(OutIds(s.outputs)))
    ensures forall l :: 0 <= l < |s.outputs| ==> OutIds(s.outputs)[l] == Str(s.outputs[l].id)
    ensures Field(RenderStep(s), "in") == Some(InField(s.inputs))
    ensures Field(RenderStep(s), "run") == Some(Map([
      ("class", Str("CommandLineTool")),
      ("baseCommand", List([])),
      ("inputs", RunInputs(s.inputs)),
      ("outputs", RunOutputs(s.outputs))]))
  {
    assert AllLinked(s.inputs);
    StepNodeFields(s.title, s.summary, InField(s.inputs), OutIds(s.outputs), RunInputs(s.inputs), RunOutputs(s.outputs));
  }

  lemma StepNodeFields(title: string, summary: string, inField: Node, out: seq<Node>, runInputs: Node, runOutputs: Node)
    ensures var n := StepNode(title, summary, inField, out, runInputs, runOutputs);
      && n.Map? && Keys(n.entries) == ["label", "doc", "run", "out", "in"]
      && Field(n, "label") == Some(Str(title))
      && Field(n, "doc") == Some(Str(summary))
      && Field(n, "out") == Some(List(out))
      && Field(n, "in") == Some(inField)
      && Field(n, "run") == Some(Map([
        ("class", Str("CommandLineTool")),
        ("baseCommand", List([])),
        ("inputs", runInputs),
        ("outputs", runOutputs)]))
  {
    var d := StepNode(title, summary, inField, out, runInputs, runOutputs).entries;
    assert Keys(d) == ["label", "doc", "run", "out", "in"];
    IndexOfFirst(d, "label", 0);
    IndexOfFirst(d, "doc", 1);
    IndexOfFirst(d, "run", 2);
    IndexOfFirst(d, "out", 3);
    IndexOfFirst(d, "in", 4);
  }

  /** `format_steps` fails, with a KeyError, exactly when some step has an input without a source. */
  lemma RenderStepsFails(t: Table)
    ensures RenderSteps(t).Failure? <==>
      exists i, j :: 0 <= i < |t| && 0 <= j < |t[i].1.inputs| && t[i].1.inputs[j].source.None?
    ensures RenderSteps(t).Failure? ==> RenderSteps(t).error == MissingSource
    ensures |t| == 0 ==> RenderSteps(t) == Success(List([]))
  {
    if !TableLinked(t) {
      var i :| 0 <= i < |t| && !StepLinked(t[i].1);
      var j :| 0 <= j < |t[i].1.inputs| && t[i].1.inputs[j].source.None?;
    }
  }

  /** `i` is the last entry of `t` whose step has class `cls`. */
  ghost predicate LastWithClass(t: Table, cls: string, i: int) {
    0 <= i < |t| && t[i].1.cls == cls && forall i' :: i < i' < |t| ==> t[i'].1.cls != cls
  }

  /**
   * The steps mapping is keyed by step class: it has an entry for each class of the
   * table, holding the rendering of the last step with that class, so that steps
   * sharing a class collapse into one.
   */
  lemma RenderedEntries(t: Table, cls: string)
    requires |t| > 0 && TableLinked(t)
    ensures RenderSteps(t).Success?
    ensures Field(RenderSteps(t).value, cls).Some? <==> exists i :: 0 <= i < |t| && t[i].1.cls == cls
    ensures forall i :: LastWithClass(t, cls, i) ==> Field(RenderSteps(t).value, cls) == Some(RenderStep(t[i].1))
  {
    var ps := StepPairs(t);
    LookupKeys(FromPairs(ps), cls);
    FromPairsKeys(ps, cls);
    if exists i :: 0 <= i < |t| && t[i].1.cls == cls {
      var i :| 0 <= i < |t| && t[i].1.cls == cls;
      assert ps[i].0 == cls;
    }
    if exists i :: 0 <= i < |ps| && ps[i].0 == cls {
      var i :| 0 <= i < |ps| && ps[i].0 == cls;
      assert t[i].1.cls == cls;
    }
    forall i | LastWithClass(t, cls, i)
      ensures Field(RenderSteps(t).value, cls) == Some(RenderStep(t[i].1))
    {
      assert LastWithKey(ps, cls, i);
      FromPairsLast(ps, cls, i);
    }
  }

  /** With distinct step classes the steps mapping holds every step once, in table order. */
  lemma RenderedInOrder(t: Table)
    requires |t| > 0 && TableLinked(t)
    requires forall p, q :: 0 <= p < q < |t| ==> t[p].1.cls != t[q].1.cls
    ensures RenderSteps(t) == Success(Map(StepPairs(t)))
    ensures Keys(RenderSteps(t).value.entries) == seq(|t|, i requires 0 <= i < |t| => t[i].1.cls)
  {
    var ps := StepPairs(t);
    assert UniqueKeys(ps);
    FromPairsDistinct(ps);
  }

  /**
   * The document has the keys `cwlVersion`, `class`, `label`, `doc`, `inputs`,
   * `outputs`, `steps` and `$namespaces`, in this order; it is a `Workflow` without
   * inputs or outputs of its own, and binds the `cryoem` prefix to the ontology.
   */
  lemma DocumentShape(version: string, title: string, doc: string, steps: Node)
    ensures var d := WorkflowDocument(version, title, doc, steps);
      d.Map? && Keys(d.entries) == ["cwlVersion", "class", "label", "doc", "inputs", "outputs", "steps", "$namespaces"]
    ensures Field(WorkflowDocument(version, title, doc, steps), "inputs") == Some(List([]))
    ensures Field(WorkflowDocument(version, title, doc, steps), "outputs") == Some(List([]))
  {
    var d := WorkflowDocument(version, title, doc, steps).entries;
    assert Keys(d) == ["cwlVersion", "class", "label", "doc", "inputs", "outputs", "steps", "$namespaces"];
    IndexOfFirst(d, "inputs", 4);
    IndexOfFirst(d, "outputs", 5);
  }

  /** The document's own fields: the version, label and doc given, and the class `Workflow`. */
  lemma DocumentFields(version: string, title: string, doc: string, steps: Node)
    ensures Field(WorkflowDocument(version, title, doc, steps), "cwlVersion") == Some(Str(version))
    ensures Field(WorkflowDocument(version, title, doc, steps), "class") == Some(Str("Workflow"))
    ensures Field(WorkflowDocument(version, title, doc, steps), "label") == Some(Str(title))
    ensures Field(WorkflowDocument(version, title, doc, steps), "doc") == Some(Str(doc))
  {
    var d := WorkflowDocument(version, title, doc, steps).entries;
    IndexOfFirst(d, "cwlVersion", 0);
    IndexOfFirst(d, "class", 1);
    IndexOfFirst(d, "label", 2);
    IndexOfFirst(d, "doc", 3);
  }

  /** The document's `steps` are the rendered steps, and `cryoem` is bound to the ontology. */
  lemma DocumentSteps(version: string, title: string, doc: string, steps: Node)
    ensures Field(WorkflowDocument(version, title, doc, steps), "steps") == Some(steps)
    ensures Field(WorkflowDocument(version, title, doc, steps), "$namespaces") ==
      Some(Map([("cryoem", Str("http://scipion.i2pc.es/ontology/"))]))
  {
    var d := WorkflowDocument(version, title, doc, steps).entries;
    IndexOfFirst(d, "steps", 6);
    IndexOfFirst(d, "$namespaces", 7);
  }

  /** A value handed to `set`: a text field, or the step table. */
  datatype Value = Text(text: string) | Steps(table: Table)

  class CWL {
    var version: string
    /** The `label` attribute. */
    var title: string
    var doc: string
    /** The step table; `None` while it is still the class default, an empty list. */
    var steps: Option<Table>

    constructor ()
      ensures version == DefaultVersion && title == "" && doc == "" && steps == None
    {
      version := DefaultVersion;
      title := "";
      doc := "";
      steps := None;
    }

    /**
     * `set(key, value)`: "version", "label", "doc" and "steps" replace their field;
     * any other key changes nothing.
     */
    method Set(key: string, value: Value)
      requires key == "steps" ==> value.Steps?
      requires key == "version" || key == "label" || key == "doc" ==> value.Text?
      modifies this
      ensures version == if key == "version" then value.text else old(version)
      ensures title == if key == "label" then value.text else old(title)
      ensures doc == if key == "doc" then value.text else old(doc)
      ensures steps == if key == "steps" then Some(value.table) else old(steps)
    {
      if key == "version" {
        version := value.text;
      }
      if key == "label" {
        title := value.text;
      } else if key == "doc" {
        doc := value.text;
      } else if key == "steps" {
        steps := Some(value.table);
      }
    }

    /** What `format_steps` returns, or raises, for the current fields. */
    function StepsNode(): Result<Node, Error>
      reads this
    {
      match steps
      case None => Failure(StepsHasNoKeys)
      case Some(t) => RenderSteps(t)
    }

    /** The document `create` builds from the current fields, or the exception it raises. */
    function Document(): Result<Node, Error>
      reads this
    {
      match StepsNode()
      case Failure(e) => Failure(e)
      case Success(n) => Success(WorkflowDocument(version, title, doc, n))
    }

    /**
     * `create` raises an AttributeError when `steps` was never set and a KeyError when
     * some step has an input without a source; otherwise its document carries the
     * current version, label and doc, and the rendered steps.
     */
    lemma DocumentOutcome()
      ensures Document().Failure? <==> steps.None? || !TableLinked(steps.value)
      ensures steps.None? ==> Document() == Failure(StepsHasNoKeys)
      ensures steps.Some? && !TableLinked(steps.value) ==> Document() == Failure(MissingSource)
      ensures Document().Success? ==>
        && Field(Document().value, "cwlVersion") == Some(Str(version))
        && Field(Document().value, "label") == Some(Str(title))
        && Field(Document().value, "doc") == Some(Str(doc))
        && Field(Document().value, "steps") == Some(RenderSteps(steps.value).value)
    {
      if steps.Some? {
        RenderStepsFails(steps.value);
        if RenderSteps(steps.value).Success? {
          DocumentFields(version, title, doc, RenderSteps(steps.value).value);
          DocumentSteps(version, title, doc, RenderSteps(steps.value).value);
        }
      }
    }

    /** `format_steps`: the loops that build the `steps` mapping. */
    method FormatSteps() returns (r: Result<Node, Error>)
      ensures r == StepsNode()
    {
      if steps.None? {
        return Failure(StepsHasNoKeys);
      }
      var t := steps.value;
      if |t| == 0 {
        return Success(List([]));
      }
      var formatted: Dict<Node> := [];
      var i := 0;
      while i < |t|
        invariant 0 <= i <= |t|
        invariant TableLinked(t[..i])
        invariant formatted == FromPairs(StepPairs(t[..i]))
      {
        var step := t[i].1;
        var inputs :- FormatInputs(step.inputs);
        var (inField, runInputs) := inputs;
        var out, runOutputs := FormatOutputs(step.outputs);
        var node := StepNode(step.title, step.summary, inField, out, runInputs, runOutputs);
        assert StepLinked(step);
        assert node == RenderStep(step);
        StepSnoc(t, i);
        FromPairsSnoc(StepPairs(t[..i]), (step.cls, node));
        formatted := Assign(formatted, step.cls, node);
        i := i + 1;
      }
      assert t[..i] == t;
      r := Success(Map(formatted));
    }

    /**
     * `create`: builds the document and asks the validator about it. The YAML file
     * the document is written to is not modelled; `validate` judges the document.
     */
    method Create(validate: Node -> bool) returns (r: Result<bool, Error>)
      ensures r == match Document() case Success(d) => Success(validate(d)) case Failure(e) => Failure(e)
    {
      var stepsNode :- FormatSteps();
      var document := WorkflowDocument(version, title, doc, stepsNode);
      r := Success(validate(document));
    }
  }
}
