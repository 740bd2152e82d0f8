/**
 * `createROCrate` of the WorkflowHub deposition protocol: it builds the step table
 * from the project's runs, links inputs to outputs, renders and validates the CWL
 * workflow and, when it is valid, fills in the RO-Crate metadata from the form
 * parameters.
 */
module Depositor {
  import opened Wrappers
  import PyStr
  import opened StepTable
  import Linkage
  import opened Cwl

  /** The form parameters the crate metadata is read from. */
  datatype Params = Params(
    name: string,
    description: string,
    keywords: string,
    publisher: string,
    authorship: string)

  /** The metadata of the crate: people are given by their `name` property. */
  datatype Crate = Crate(
    name: string,
    description: string,
    license: string,
    keywords: seq<string>,
    publisher: string,
    creators: seq<string>)

  const License: string := "Apache-2.0"

  /** Appended to the description of every crate. */
  const ReproduceNote: string :=
    "\r\n\r\n In order to reproduce this workflow install Scipion software (http://scipion.i2pc.es/) and import the workflow.json file"

  /** The keywords: the comma-separated pieces, each stripped of surrounding whitespace. */
  function Keywords(s: string): seq<string> {
    var parts := PyStr.Split(s, ',');
    seq(|parts|, i requires 0 <= i < |parts| => PyStr.Strip(parts[i]))
  }

  /** The creators: the publisher, then the comma-separated authors, not stripped. */
  function Creators(publisher: string, authorship: string): seq<string> {
    [publisher] + PyStr.Split(authorship, ',')
  }

  function CrateOf(p: Params): Crate {
    Crate(p.name, p.description + ReproduceNote, License, Keywords(p.keywords), p.publisher,
      Creators(p.publisher, p.authorship))
  }

  /**
   * What `createROCrate` ends in: the exception that stops it, or whether the workflow
   * was valid together with the crate metadata it then writes.
   */
  function CrateOutcome(runs: seq<Run>, p: Params, validate: Node -> bool): Result<Option<Crate>, Error> {
    match RenderSteps(Linkage.Linked(WorkflowOf(runs)))
    case Failure(e) => Failure(e)
    case Success(steps) =>
      if validate(WorkflowDocument(DefaultVersion, p.name, p.description, steps))
      then Success(Some(CrateOf(p)))
      else Success(None)
  }

  /**
   * The steps of `createROCrate`. `Success(None)` is the run that returns False;
   * `Success(Some(c))` the run that returns True after writing crate `c`.
   */
  method CreateROCrate(runs: seq<Run>, p: Params, validate: Node -> bool) returns (r: Result<Option<Crate>, Error>)
    ensures r == CrateOutcome(runs, p, validate)
  {
    var workflow := BuildWorkflow(runs);
    workflow := Linkage.Link(workflow);
    var cwl := new CWL();
    cwl.Set("label", Text(p.name));
    cwl.Set("doc", Text(p.description));
    cwl.Set("steps", Steps(workflow));
    assert cwl.StepsNode() == RenderSteps(Linkage.Linked(WorkflowOf(runs)));
    assert cwl.version == DefaultVersion && cwl.title == p.name && cwl.doc == p.description;
    var valid :- cwl.Create(validate);
    if !valid {
      return Success(None);
    }
    var crate := CrateMetadata(p);
    r := Success(Some(crate));
  }

  /** The metadata filled in once the workflow is valid, creators appended one by one. */
  method CrateMetadata(p: Params) returns (crate: Crate)
    ensures crate == CrateOf(p)
  {
    var creators := [p.publisher];
    var authors := PyStr.Split(p.authorship, ',');
    var k := 0;
    while k < |authors|
      invariant 0 <= k <= |authors|
      invariant creators == [p.publisher] + authors[..k]
    {
      creators := creators + [authors[k]];
      k := k + 1;
    }
    assert authors[..k] == authors;
    crate := Crate(p.name, p.description + ReproduceNote, License, Keywords(p.keywords), p.publisher, creators);
  }

  /** A stripped string holds only characters of the original. */
  lemma StripWithout(s: string, c: char)
    requires c !in s
    ensures c !in PyStr.Strip(s)
  {
    var lead, trail := PyStr.StripSpec(s);
    forall m | 0 <= m < |PyStr.Strip(s)|
      ensures PyStr.Strip(s)[m] != c
    {
      assert PyStr.Strip(s)[m] == s[|lead| + m];
    }
  }

  /** A string without surrounding whitespace is its own strip. */
  lemma StripNoop(w: string)
    requires |w| > 0 ==> !PyStr.IsSpace(w[0]) && !PyStr.IsSpace(w[|w| - 1])
    ensures PyStr.Strip(w) == w
  {
  }

  /**
   * There is one keyword more than there are commas, and every keyword is free of
   * commas and of surrounding whitespace.
   */
  lemma KeywordsSpec(s: string)
    ensures |Keywords(s)| == PyStr.Count(s, ',') + 1
    ensures forall i :: 0 <= i < |Keywords(s)| ==>
      var w := Keywords(s)[i];
      ',' !in w && (|w| > 0 ==> !PyStr.IsSpace(w[0]) && !PyStr.IsSpace(w[|w| - 1]))
  {
    var parts := PyStr.Split(s, ',');
    var ks := Keywords(s);
    PyStr.SplitCount(s, ',');
    assert |ks| == |parts|;
    forall i | 0 <= i < |ks|
      ensures var w := ks[i];
        ',' !in w && (|w| > 0 ==> !PyStr.IsSpace(w[0]) && !PyStr.IsSpace(w[|w| - 1]))
    {
      assert ks[i] == PyStr.Strip(parts[i]);
      StripWithout(parts[i], ',');
      PyStr.StripEnds(parts[i]);
    }
  }

  /** Keywords joined by a bare comma read back as themselves. */
  lemma {:induction false} KeywordsRoundTrip(ws: seq<string>)
    requires |ws| >= 1
    requires forall i :: 0 <= i < |ws| ==> ',' !in ws[i]
    requires forall i :: 0 <= i < |ws| ==> |ws[i]| > 0 ==> !PyStr.IsSpace(ws[i][0]) && !PyStr.IsSpace(ws[i][|ws[i]| - 1])
    ensures Keywords(PyStr.Join(ws, ",")) == ws
  {
    assert "," == [','];
    PyStr.SplitJoin(ws, ',');
    forall i | 0 <= i < |ws|
      ensures PyStr.Strip(ws[i]) == ws[i]
    {
      StripNoop(ws[i]);
    }
  }

  /**
   * Keywords joined by commas and padded on either side with whitespace, as in
   * "cryoem, spa, 3d refinement", read back as themselves.
   */
  lemma KeywordsPadded(ws: seq<string>, pre: seq<string>, post: seq<string>)
    requires |ws| >= 1 && |pre| == |ws| && |post| == |ws|
    requires forall i :: 0 <= i < |ws| ==> ',' !in ws[i]
    requires forall i :: 0 <= i < |ws| ==> |ws[i]| > 0 ==> !PyStr.IsSpace(ws[i][0]) && !PyStr.IsSpace(ws[i][|ws[i]| - 1])
    requires forall i :: 0 <= i < |ws| ==> PyStr.AllSpace(pre[i]) && PyStr.AllSpace(post[i])
    ensures Keywords(PyStr.Join(seq(|ws|, i requires 0 <= i < |ws| => pre[i] + ws[i] + post[i]), ",")) == ws
  {
    var padded := seq(|ws|, i requires 0 <= i < |ws| => pre[i] + ws[i] + post[i]);
    assert "," == [','];
    forall i | 0 <= i < |ws|
      ensures ',' !in padded[i]
    {
      assert !PyStr.IsSpace(',');
      forall m | 0 <= m < |padded[i]|
        ensures padded[i][m] != ','
      {
        if m < |pre[i]| {
          assert padded[i][m] == pre[i][m];
        } else if m < |pre[i]| + |ws[i]| {
          assert padded[i][m] == ws[i][m - |pre[i]|];
        } else {
          assert padded[i][m] == post[i][m - |pre[i]| - |ws[i]|];
        }
      }
    }
    PyStr.SplitJoin(padded, ',');
    forall i | 0 <= i < |ws|
      ensures PyStr.Strip(padded[i]) == ws[i]
    {
      PyStr.StripPadded(pre[i], ws[i], post[i]);
    }
  }

  /**
   * The publisher comes first, then one creator per comma-separated piece of the
   * authorship, as written: joining them with commas gives the authorship back.
   */
  lemma CreatorsSpec(publisher: string, authorship: string)
    ensures Creators(publisher, authorship)[0] == publisher
    ensures |Creators(publisher, authorship)| == PyStr.Count(authorship, ',') + 2
    ensures PyStr.Join(Creators(publisher, authorship)[1..], ",") == authorship
  {
    PyStr.SplitCount(authorship, ',');
    PyStr.JoinSplit(authorship, ',');
    assert Creators(publisher, authorship)[1..] == PyStr.Split(authorship, ',');
    assert "," == [','];
  }

  /**
   * `createROCrate` raises exactly when some input of a table entry carries an id that
   * no table entry outputs; the table holds only the last run with each id, so an
   * overwritten run neither supplies an output nor contributes an input. The linkage
   * leaves such an input without a source and rendering it raises a KeyError. Otherwise the validator alone decides whether a crate is made,
   * and the crate carries the form parameters.
   */
  lemma CrateOutcomeSpec(runs: seq<Run>, p: Params, validate: Node -> bool)
    ensures var t := WorkflowOf(runs);
      CrateOutcome(runs, p, validate).Failure? <==>
        exists i, j :: 0 <= i < |t| && 0 <= j < |t[i].1.inputs| &&
          forall q :: 0 <= q < |t| ==> !Linkage.Produces(t[q].1, t[i].1.inputs[j].id)
    ensures CrateOutcome(runs, p, validate).Failure? ==> CrateOutcome(runs, p, validate).error == MissingSource
    ensures CrateOutcome(runs, p, validate) == Success(Some(CrateOf(p))) ||
      CrateOutcome(runs, p, validate) == Success(None) || CrateOutcome(runs, p, validate).Failure?
    ensures CrateOutcome(runs, p, validate).Success? ==>
      exists d :: && Field(d, "cwlVersion") == Some(Str("v1.1"))
                  && Field(d, "label") == Some(Str(p.name))
                  && Field(d, "doc") == Some(Str(p.description))
                  && (CrateOutcome(runs, p, validate) == Success(Some(CrateOf(p))) <==> validate(d))
  {
    var t := WorkflowOf(runs);
    var u := Linkage.Linked(t);
    RenderStepsFails(u);
    forall i, j | 0 <= i < |t| && 0 <= j < |t[i].1.inputs|
      ensures u[i].1.inputs[j].id == t[i].1.inputs[j].id
      ensures u[i].1.inputs[j].source.None? <==>
        forall q :: 0 <= q < |t| ==> !Linkage.Produces(t[q].1, t[i].1.inputs[j].id)
    {
      Linkage.LinkedWorkflowSources(runs, i, j);
    }
    if RenderSteps(u).Success? {
      var d := WorkflowDocument(DefaultVersion, p.name, p.description, RenderSteps(u).value);
      DocumentFields(DefaultVersion, p.name, p.description, RenderSteps(u).value);
      assert CrateOutcome(runs, p, validate) == Success(Some(CrateOf(p))) <==> validate(d);
    }
  }
}
