# WorkflowHub deposition: step table, linkage and CWL rendering

The WorkflowHub deposition protocol of the Scipion plugin `scipion-em-workflowhub`
turns the runs of a Scipion project into a CWL v1.1 `Workflow` document. It then
validates the document and, when it is valid, describes it in an RO-Crate. This
project models that translation in Dafny and proves properties of it:

- **Step table** (`steptable.dfy`). The runs become an insertion-ordered dict keyed
  by run id. Each entry holds:
  - the composite class `<id>_<className>`;
  - the label;
  - the summary lines joined with `", "`;
  - the input ports (a reference's id is its unique id up to the last `.`);
  - the output ports.
- **Linkage** (`linkage.dfy`). Four nested loops give every input whose id equals
  some output id the source `<producing class>/<id>`. The loops never stop early, so
  the last matching step wins.
- **CWL emitter** (`cwl.dfy`). The `CWL` class holds version, label, doc and steps.
  - `set` updates them.
  - `format_steps` renders the step table into the `steps` mapping. It is keyed by
    step class, and each port is typed `File` with a format from the cryo-EM ontology
    (`ontology.dfy`).
  - `create` builds the document and hands it to the validator.
- **Crate metadata** (`depositor.dfy`). `createROCrate` runs the steps above in order.
  On a valid document it fills in the crate's license, name, description, keywords
  and creators.

Python's dict and string semantics are modelled explicitly:
- `pydict.dfy`: `d[k] = v` replaces an existing key in place or appends a new one.
- `pystr.dfy`: `str.split`, `sep.join`, `str.strip()` (over the full `str.isspace`
  set) and `str.rsplit(sep, 1)[0]`.

Python exceptions become `Result` failures:
- `MissingSource` stands for the `KeyError` that `input['source']` raises.
- `StepsHasNoKeys` stands for the `AttributeError` that `.keys()` raises on the
  class default `steps = []`.

Two behaviours of the code shape the model:
- An input that no output matches gets no `source`, and rendering it raises
  `KeyError` (line 122), so `format_steps`, `create` and `createROCrate` fail.
  `Depositor.CrateOutcomeSpec` states exactly when this happens.
- When several outputs share an input's id, the last one in iteration order gives
  the source (lines 269-274, `Linkage.LinkedSource`).

## Model

| member | source | states |
|---|---|---|
| PyDict.Assign | workflowhub/protocols/protocol_workflowhub_submission.py:113-114 | `d[k] = v`: afterwards `k` maps to `v` and other keys keep their values; an existing key keeps its place, a new key goes last; unique keys stay unique |
| PyDict.FromPairsAbsent | workflowhub/protocols/protocol_workflowhub_submission.py:252-258 | a key never assigned is missing from the dict |
| PyDict.FromPairsLast | workflowhub/protocols/protocol_workflowhub_submission.py:252-258 | after a run of assignments a key holds the value of its last assignment |
| PyDict.FromPairsKeys | workflowhub/protocols/protocol_workflowhub_submission.py:252-258 | the dict's keys are exactly the keys assigned |
| PyDict.FromPairsDistinct | workflowhub/protocols/protocol_workflowhub_submission.py:112-114 | assigning distinct keys yields exactly those pairs in assignment order |
| PyDict.LookupKeys | workflowhub/protocols/protocol_workflowhub_submission.py:122 | `d[k]` succeeds exactly for the keys of `d` |
| PyStr.Split | workflowhub/protocols/protocol_workflowhub_submission.py:302 | `split(c)` yields at least one piece and no piece contains `c` |
| PyStr.SplitCount | workflowhub/protocols/protocol_workflowhub_submission.py:302 | there is one piece more than there are separators |
| PyStr.JoinSplit | workflowhub/protocols/protocol_workflowhub_submission.py:302 | joining the pieces with the separator gives the string back |
| PyStr.SplitJoin | workflowhub/protocols/protocol_workflowhub_submission.py:322 | splitting a join of separator-free pieces gives the pieces back |
| PyStr.LStrip | workflowhub/protocols/protocol_workflowhub_submission.py:322 | the result is a suffix of the input, what was removed is whitespace, and the result does not start with whitespace |
| PyStr.RStrip | workflowhub/protocols/protocol_workflowhub_submission.py:322 | the result is a prefix of the input, what was removed is whitespace, and the result does not end with whitespace |
| PyStr.StripSpec | workflowhub/protocols/protocol_workflowhub_submission.py:322 | the input is leading whitespace, then the stripped string, then trailing whitespace |
| PyStr.StripEnds | workflowhub/protocols/protocol_workflowhub_submission.py:322 | the stripped string neither starts nor ends with whitespace |
| PyStr.StripIdempotent | workflowhub/protocols/protocol_workflowhub_submission.py:322 | stripping twice is stripping once |
| PyStr.StripPadded | workflowhub/protocols/protocol_workflowhub_submission.py:322 | whitespace padding on both sides of a string without surrounding whitespace strips off exactly |
| PyStr.LastIndex | workflowhub/protocols/protocol_workflowhub_submission.py:261 | the position found holds the character and none follows; when none is found the character does not occur |
| PyStr.RSplitHeadSpec | workflowhub/protocols/protocol_workflowhub_submission.py:261 | `rsplit(c, 1)[0]` is `h` iff the string has no `c` and is `h`, or is `h`, a `c` and a `c`-free tail |
| Ontology.FormatSpec | workflowhub/protocols/protocol_workflowhub_submission.py:124 | a listed class gets `cryoem:<its code>`; the format is `unknown` exactly for unlisted classes |
| Ontology.FormatExamples | workflowhub/protocols/protocol_workflowhub_submission.py:51-94 | sample lookups in the ontology table (`Volume`, `SetOfParticles`, an unlisted class) |
| StepTable.PortsOf | workflowhub/protocols/protocol_workflowhub_submission.py:259-266 | the two port loops yield the ports of the run in iteration order, with a reference's id cut at its last `.` |
| StepTable.BuildWorkflow | workflowhub/protocols/protocol_workflowhub_submission.py:251-266 | the loop builds the table that assigning each run's step under its id, in run order, builds |
| StepTable.StepClassInjective | workflowhub/protocols/protocol_workflowhub_submission.py:254 | with no `_` in the ids, the composite class determines id and class name |
| StepTable.StepClassCollision | workflowhub/protocols/protocol_workflowhub_submission.py:254 | with a `_` in an id, two different runs can share a composite class |
| StepTable.WorkflowLookup | workflowhub/protocols/protocol_workflowhub_submission.py:252-258 | the table has each run id once, holding the step of the last run with that id |
| StepTable.WorkflowEntry | workflowhub/protocols/protocol_workflowhub_submission.py:252-258 | every entry is some run's step under that run's id |
| StepTable.WorkflowUnlinked | workflowhub/protocols/protocol_workflowhub_submission.py:259-262 | before linkage no input has a source |
| StepTable.WorkflowClassesDistinct | workflowhub/protocols/protocol_workflowhub_submission.py:254 | with no `_` in run ids, different entries have different classes |
| Linkage.Linked | workflowhub/protocols/protocol_workflowhub_submission.py:269-274 | the pass changes input sources only: keys, classes, labels, summaries, outputs, input ids and input classes stay |
| Linkage.Link | workflowhub/protocols/protocol_workflowhub_submission.py:269-274 | the four nested loops compute the linked table |
| Linkage.ProducerNone | workflowhub/protocols/protocol_workflowhub_submission.py:271-274 | there is no producer exactly when no step has an output with the id |
| Linkage.ProducerLast | workflowhub/protocols/protocol_workflowhub_submission.py:271-274 | the last step with a matching output is the producer |
| Linkage.ProducerFound | workflowhub/protocols/protocol_workflowhub_submission.py:271-274 | a producer is always the class of the last step with a matching output |
| Linkage.ProducerFrame | workflowhub/protocols/protocol_workflowhub_submission.py:271-274 | the producer depends only on the steps' classes and outputs |
| Linkage.LinkedSource | workflowhub/protocols/protocol_workflowhub_submission.py:269-274 | an unmatched input is left as it was; a matched one gets `<class of the last producing step>/<id>` |
| Linkage.LinkIdempotent | workflowhub/protocols/protocol_workflowhub_submission.py:269-274 | running the pass again changes nothing |
| Linkage.LinkedWorkflowSources | workflowhub/protocols/protocol_workflowhub_submission.py:252-274 | on a freshly built table an input gets a source iff some step outputs its id, and the source names the last such step |
| Cwl.FormatInputs | workflowhub/protocols/protocol_workflowhub_submission.py:118-127 | the inputs loop raises `KeyError` iff some input has no source; otherwise it yields `in` and the run-spec `inputs` (empty lists when there is no input) |
| Cwl.FormatOutputs | workflowhub/protocols/protocol_workflowhub_submission.py:129-136 | the outputs loop yields the output ids in order and the run-spec `outputs` (an empty list when there is no output) |
| Cwl.InputEntries | workflowhub/protocols/protocol_workflowhub_submission.py:118-127 | `in` has an entry iff an input has that id; the last such input gives its source |
| Cwl.RunInputEntries | workflowhub/protocols/protocol_workflowhub_submission.py:118-127 | run-spec `inputs` has an entry iff an input has that id; the last such input gives its typed format |
| Cwl.OutputEntries | workflowhub/protocols/protocol_workflowhub_submission.py:129-136 | run-spec `outputs` has an entry iff an output has that id, typed after the last such output |
| Cwl.RenderStepShape | workflowhub/protocols/protocol_workflowhub_submission.py:114-136 | a rendered step has keys label, doc, run, out, in, in this order; run is a `CommandLineTool` with `baseCommand: []`; `out` lists the output ids in order |
| Cwl.StepNodeFields | workflowhub/protocols/protocol_workflowhub_submission.py:114-116 | the fields of a step mapping, by key |
| Cwl.RenderStepsFails | workflowhub/protocols/protocol_workflowhub_submission.py:109-140 | `format_steps` fails, always with `KeyError`, iff some step has an input without a source; an empty table renders as `[]` |
| Cwl.RenderedEntries | workflowhub/protocols/protocol_workflowhub_submission.py:113-114 | the steps mapping has an entry iff some step has that class, holding the rendering of the last step with it |
| Cwl.RenderedInOrder | workflowhub/protocols/protocol_workflowhub_submission.py:111-138 | with distinct classes every step is rendered once, in table order |
| Cwl.DocumentShape | workflowhub/protocols/protocol_workflowhub_submission.py:150-157 | the document's keys and their order; `inputs` and `outputs` are empty lists |
| Cwl.DocumentFields | workflowhub/protocols/protocol_workflowhub_submission.py:150-153 | the document carries the version, `Workflow`, the label and the doc |
| Cwl.DocumentSteps | workflowhub/protocols/protocol_workflowhub_submission.py:156-157 | the document carries the rendered steps and binds `cryoem` to `http://scipion.i2pc.es/ontology/` |
| Cwl.CWL.constructor | workflowhub/protocols/protocol_workflowhub_submission.py:43-48 | a new CWL has version `v1.1`, empty label and doc, and no steps set |
| Cwl.CWL.Set | workflowhub/protocols/protocol_workflowhub_submission.py:99-107 | `version`, `label`, `doc` and `steps` replace their field and any other key changes nothing |
| Cwl.CWL.FormatSteps | workflowhub/protocols/protocol_workflowhub_submission.py:109-140 | the loops compute the rendered steps, or the exception they raise |
| Cwl.CWL.DocumentOutcome | workflowhub/protocols/protocol_workflowhub_submission.py:148-157 | `create` raises `AttributeError` iff steps were never set and `KeyError` iff a step has an input without a source; otherwise the document carries the fields |
| Cwl.CWL.Create | workflowhub/protocols/protocol_workflowhub_submission.py:148-163 | `create` returns the validator's verdict on the document, or the exception |
| Depositor.CreateROCrate | workflowhub/protocols/protocol_workflowhub_submission.py:245-328 | `createROCrate` builds, links, renders and validates, then writes the crate metadata iff the document is valid |
| Depositor.CrateMetadata | workflowhub/protocols/protocol_workflowhub_submission.py:297-322 | the metadata: publisher, then the authors one by one, the license, the name, the description with the reproduction note, and the keywords |
| Depositor.StripWithout | workflowhub/protocols/protocol_workflowhub_submission.py:322 | stripping adds no character |
| Depositor.StripNoop | workflowhub/protocols/protocol_workflowhub_submission.py:322 | a string without surrounding whitespace strips to itself |
| Depositor.KeywordsSpec | workflowhub/protocols/protocol_workflowhub_submission.py:322 | one keyword more than there are commas; each keyword is free of commas and of surrounding whitespace |
| Depositor.KeywordsRoundTrip | workflowhub/protocols/protocol_workflowhub_submission.py:322 | stripped comma-free keywords joined by commas read back as themselves |
| Depositor.KeywordsPadded | workflowhub/protocols/protocol_workflowhub_submission.py:322 | keywords joined by commas with whitespace padding on either side, as in the form's example at line 191, read back as the keywords |
| Depositor.CreatorsSpec | workflowhub/protocols/protocol_workflowhub_submission.py:298-306 | the publisher comes first, then one creator per comma-separated piece, unstripped, and the pieces join back to the authorship |
| Depositor.CrateOutcomeSpec | workflowhub/protocols/protocol_workflowhub_submission.py:251-284 | `createROCrate` raises `KeyError` iff some input of a table entry (the last run with each id) has an id that no table entry outputs; otherwise it validates a document carrying version `v1.1`, the name as `label` and the description as `doc`, and makes the crate of the form parameters exactly when the validator accepts that document |

## Left out

- The validator (`validate`, lines 142-146): running `cwltool` is a subprocess call. The model takes it as a parameter that judges the document.
- Writing the document as YAML to a file (lines 159-160): the document is modelled as a `Node` value, and its serialisation is not modelled.
- The RO-Crate library (lines 286-295, 324-325): creating the crate, adding `workflow.json`, registering `Person` entities and writing the zip are foreign calls. The model keeps only the metadata values the protocol sets.
- The workflow diagram (lines 309-317): a subprocess and a file-existence check.
- `makeDepositionStep` (lines 202-219): the HTTP upload to WorkflowHub and the parsing of its response.
- `_defineParams`, `_insertAllSteps`, `_validate`, `_citations`, `_summary` and `_methods` (lines 184-242): form definitions and host-framework checks. The parameters arrive as a `Params` value.
- `__str__` (lines 165-167): a debug rendering.
- The host graph (`getProject`, `getRuns`, `getDefinitionDict`, the attribute iterators, `str()` of summary lines): runs arrive as `Run` values holding what the translation reads.
- The unused class attributes `inputs` and `outputs` of `CWL`, and the progress messages printed.
- setup.py is not part of this model.
- Linkage.Link: the source writes `input['source']` into the dicts of the table in place. The model returns a new table with the same contents; no other alias to those dicts exists.
- Cwl.CWL.Set: values are typed. `label`, `doc` and `version` take text and `steps` takes a step table, which is what `createROCrate` passes. Python would store any value.
- Cwl.CWL.Create: the output path and file name are not modelled. The result is the validator's verdict or the exception raised.
