/**
 * The pass of `createROCrate` that relates inputs to outputs: every input whose id
 * equals the id of some output of some step (the step itself included) gets the
 * source `<producing step class>/<id>`. The loops never stop early, so when several
 * outputs match, the last one in iteration order decides.
 */
module Linkage {
  import opened Wrappers
  import opened PyDict
  import opened StepTable

  /** Step `s` has an output with id `id`. */
  predicate Produces(s: Step, id: string) {
    exists l :: 0 <= l < |s.outputs| && s.outputs[l].id == id
  }

  /** The class of the last step of `t` that has an output `id`. */
  function Producer(t: Table, id: string): Option<string> {
    if |t| == 0 then None
    else if Produces(t[|t| - 1].1, id) then Some(t[|t| - 1].1.cls)
    else Producer(t[..|t| - 1], id)
  }

  /** Entry `p` is the last entry of `t` whose step has an output `id`. */
  ghost predicate LastProducer(t: Table, id: string, p: int) {
    0 <= p < |t| && Produces(t[p].1, id) && forall q :: p < q < |t| ==> !Produces(t[q].1, id)
  }

  /** The source the pass gives one input. */
  function LinkInput(t: Table, x: Input): Input {
    match Producer(t, x.id)
    case None => x
    case Some(cls) => x.(source := Some(cls + "/" + x.id))
  }

  function LinkStep(t: Table, s: Step): Step {
    s.(inputs := seq(|s.inputs|, j requires 0 <= j < |s.inputs| => LinkInput(t, s.inputs[j])))
  }

  /** `b` is `a` with, at most, other input sources. */
  predicate SameButSources(a: Step, b: Step) {
    && a.cls == b.cls && a.title == b.title && a.summary == b.summary && a.outputs == b.outputs
    && |a.inputs| == |b.inputs|
    && forall j :: 0 <= j < |a.inputs| ==> a.inputs[j].id == b.inputs[j].id && a.inputs[j].cls == b.inputs[j].cls
  }

  /** The table after the pass. */
  function Linked(t: Table): (r: Table)
    ensures |r| == |t|
    ensures forall i :: 0 <= i < |t| ==> r[i].0 == t[i].0 && SameButSources(t[i].1, r[i].1)
  {
    seq(|t|, i requires 0 <= i < |t| => (t[i].0, LinkStep(t, t[i].1)))
  }

  /**
   * The four nested loops. The input being linked is held in `x` and stored back
   * once every output has been compared with it; the Python code assigns
   * `input['source']` on each match instead, which ends in the same table since
   * nothing reads a source during the pass.
   */
  method Link(workflow: Table) returns (r: Table)
    ensures r == Linked(workflow)
  {
    r := workflow;
    var i := 0;
    while i < |r|
      invariant 0 <= i <= |r| == |workflow|
      invariant forall k :: 0 <= k < i ==> r[k] == Linked(workflow)[k]
      invariant forall k :: i <= k < |r| ==> r[k] == workflow[k]
    {
      var inputs := r[i].1.inputs;
      var j := 0;
      while j < |inputs|
        invariant 0 <= j <= |inputs| == |workflow[i].1.inputs|
        invariant forall m :: 0 <= m < j ==> inputs[m] == LinkInput(workflow, workflow[i].1.inputs[m])
        invariant forall m :: j <= m < |inputs| ==> inputs[m] == workflow[i].1.inputs[m]
      {
        ghost var x0 := workflow[i].1.inputs[j];
        var x := inputs[j];
        var k := 0;
        while k < |r|
          invariant 0 <= k <= |r|
          invariant x == LinkInput(workflow[..k], x0)
        {
          assert r[k].1.cls == workflow[k].1.cls && r[k].1.outputs == workflow[k].1.outputs;
          var outputs := r[k].1.outputs;
          ghost var before := x;
          var l := 0;
          while l < |outputs|
            invariant 0 <= l <= |outputs|
            invariant x == if exists m :: 0 <= m < l && outputs[m].id == x0.id
              then x0.(source := Some(r[k].1.cls + "/" + x0.id))
              else before
          {
            if x.id == outputs[l].id {
              x := x.(source := Some(r[k].1.cls + "/" + x.id));
            }
            l := l + 1;
          }
          assert workflow[..k + 1][..k] == workflow[..k];
          k := k + 1;
        }
        assert workflow[..|r|] == workflow;
        inputs := inputs[j := x];
        j := j + 1;
      }
      assert inputs == Linked(workflow)[i].1.inputs;
      r := r[i := (r[i].0, r[i].1.(inputs := inputs))];
      i := i + 1;
    }
  }

  /** There is no producer exactly when no step has an output with that id. */
  lemma {:induction false} ProducerNone(t: Table, id: string)
    ensures Producer(t, id).None? <==> forall p :: 0 <= p < |t| ==> !Produces(t[p].1, id)
  {
    if |t| > 0 {
      var n := |t| - 1;
      ProducerNone(t[..n], id);
      assert forall p :: 0 <= p < n ==> t[..n][p] == t[p];
    }
  }

  /** The last step with a matching output is the producer. */
  lemma {:induction false} ProducerLast(t: Table, id: string, p: int)
    requires LastProducer(t, id, p)
    ensures Producer(t, id) == Some(t[p].1.cls)
  {
    var n := |t| - 1;
    if p < n {
      var init := t[..n];
      assert LastProducer(init, id, p);
      ProducerLast(init, id, p);
    }
  }

  /** A producer, when there is one, is the class of the last step with a matching output. */
  lemma {:induction false} ProducerFound(t: Table, id: string) returns (p: int)
    requires Producer(t, id).Some?
    ensures LastProducer(t, id, p) && Producer(t, id) == Some(t[p].1.cls)
  {
    var n := |t| - 1;
    if Produces(t[n].1, id) {
      p := n;
    } else {
      var init := t[..n];
      p := ProducerFound(init, id);
      assert LastProducer(t, id, p);
    }
  }

  /**
   * After the pass, an input whose id some step produces has as source the class of
   * the last such step, a slash and its id; an input whose id no step produces is
   * left exactly as it was.
   */
  lemma LinkedSource(t: Table, i: int, j: int)
    requires 0 <= i < |t| && 0 <= j < |t[i].1.inputs|
    ensures var x := t[i].1.inputs[j]; var y := Linked(t)[i].1.inputs[j];
      (forall p :: 0 <= p < |t| ==> !Produces(t[p].1, x.id)) ==> y == x
    ensures var x := t[i].1.inputs[j]; var y := Linked(t)[i].1.inputs[j];
      (exists p :: 0 <= p < |t| && Produces(t[p].1, x.id)) ==>
        exists p :: LastProducer(t, x.id, p) && y == x.(source := Some(t[p].1.cls + "/" + x.id))
    ensures var x := t[i].1.inputs[j]; var y := Linked(t)[i].1.inputs[j];
      forall p :: LastProducer(t, x.id, p) ==> y.source == Some(t[p].1.cls + "/" + x.id)
  {
    var id := t[i].1.inputs[j].id;
    ProducerNone(t, id);
    forall p | LastProducer(t, id, p)
      ensures Producer(t, id) == Some(t[p].1.cls)
    {
      ProducerLast(t, id, p);
    }
    if Producer(t, id).Some? {
      var p := ProducerFound(t, id);
    }
  }

  /** The pass leaves producers as they are, so running it again changes nothing. */
  lemma LinkIdempotent(t: Table)
    ensures Linked(Linked(t)) == Linked(t)
  {
    var u := Linked(t);
    forall id: string
      ensures Producer(u, id) == Producer(t, id)
    {
      ProducerFrame(t, u, id);
    }
    forall i | 0 <= i < |u|
      ensures Linked(u)[i] == u[i]
    {
      assert Linked(u)[i].1.inputs == u[i].1.inputs;
    }
  }

  /** Producers depend only on classes and outputs. */
  lemma {:induction false} ProducerFrame(t: Table, u: Table, id: string)
    requires |t| == |u|
    requires forall i :: 0 <= i < |t| ==> t[i].1.cls == u[i].1.cls && t[i].1.outputs == u[i].1.outputs
    ensures Producer(u, id) == Producer(t, id)
  {
    if |t| > 0 {
      var n := |t| - 1;
      ProducerFrame(t[..n], u[..n], id);
    }
  }

  /**
   * On a freshly built table, after the pass an input has a source exactly when some
   * step has an output with its id, and that source names the last such step.
   */
  lemma LinkedWorkflowSources(runs: seq<Run>, i: int, j: int)
    requires 0 <= i < |WorkflowOf(runs)| && 0 <= j < |WorkflowOf(runs)[i].1.inputs|
    ensures var t := WorkflowOf(runs); var y := Linked(t)[i].1.inputs[j];
      y.source.Some? <==> exists p :: 0 <= p < |t| && Produces(t[p].1, y.id)
    ensures var t := WorkflowOf(runs); var y := Linked(t)[i].1.inputs[j];
      forall p :: LastProducer(t, y.id, p) ==> y.source == Some(t[p].1.cls + "/" + y.id)
  {
    WorkflowUnlinked(runs);
    LinkedSource(WorkflowOf(runs), i, j);
  }
}
