# ROW risk assessment workflow: driver, result normaliser and packaging helpers

This project models, in Dafny, the pure logic at the core of the ROW
(right-of-way) risk assessment example workflow and its setup script:

- **The result normaliser** (`convert_numpy_to_json`). Stage results are
  dynamically typed Python value trees. Here they are a closed datatype
  `Normalizer.Value`: string-keyed dicts, lists, tuples, numpy arrays, numpy
  integer/floating scalars, numpy bools, numpy strings, other numpy scalars,
  and plain Python atoms (None, bool, number, string, and opaque objects that
  may have a `save` method). Numbers are kept abstract. `Normalize` is total and
  structurally recursive. The lemmas show that it keeps every key, every
  element position and every number (`MeaningOf`). They show that it
  reaches a normal form exactly at its fixpoints, so it is idempotent. They
  show exactly when numpy values survive: inside tuples, and numpy scalars
  other than integer, floating and bool (a numpy string survives, and
  `json.dump` accepts it as a `str`). Finally, they show that it makes
  every numeric result tree writable by `json.dump`.
- **The workflow driver** (`main`, `save_interactive_map`,
  `print_workflow_summary`) as one pure function `Workflow.Main`. It maps an
  `Invocation` to a `Run`. The invocation holds:
  - the demo flag and the corridor argument;
  - whether the path exists;
  - the read outcome;
  - the assessment outcome, which either raises or returns a results dict.

  The run holds the exit code, whether the assessment started, the effective
  CRS, the files written in order, the summary's "Completed" lines and the
  diagnostics. The model keeps two quirks of the code. The `data` result is
  never written (`DataNeverSaved`). The summary tests membership (`in`) while
  saving tests `is not None` (`SummaryWithoutFile`).
- **The setup script helpers**: `parse_requirements`, `get_version` and the
  `all` extra. Each works over the lines of a file, with the file read left
  out. Python's `str.strip`, `startswith` and `split` are modelled in module
  `PyStr`. It uses Python's exact whitespace set, and a `Split`/`Join` round
  trip.

Modules: `Wrappers` (Option, Result), `Normalizer`, `Workflow`, `PyStr`,
`Packaging`.

Behaviour of the code that the model keeps:
- Every save sits inside the single `try` of `main` (basic_workflow.py:105-152).
  So a save that raises skips the remaining saves and the summary, and the
  run exits 1. The files saved before it stay written (`SaveResults`,
  `Main`). For example, `json.dump` raises on a numpy integer, bool, array or
  other numpy scalar (not a float64, not a numpy string) inside a tuple, or on
  an opaque object.
- `main` sees only the dict the assessment returns, whose entries are present,
  absent or None. How stages succeed, fail or are skipped is decided inside
  `ROWRiskAssessment`, which is not part of this model.
- The CRS is defaulted on the loaded GeoDataFrame, which is then dropped. The
  assessment receives only the corridor path. The model reports the effective
  CRS of the run, and nothing downstream depends on it.
- `get_version` takes `line.split('=')[1]`. That is the field between the
  first and the second `=`, not all the text after the first `=`
  (`VersionOfLineReadsField`). A `__version__` line without `=` raises
  IndexError, which the setup script does not catch
  (`VersionError.MissingEquals`).

## Model

| member | source | states |
|---|---|---|
| Normalizer.Normalize | basic_workflow.py:242-257 | the result is in normal form (no array, numpy number or numpy bool reachable through dicts and lists); a dict stays a dict over the same key set, a list a list of the same length, an array becomes a list or scalar, and every other value is returned unchanged |
| Normalizer.ToList | basic_workflow.py:250-251 | `tolist()` gives a normal value: a scalar for a 0-d array, otherwise a list with one entry per row |
| Normalizer.ToListKeepsMeaning | basic_workflow.py:250-251 | the list built from an array holds the array's elements, nested and ordered as in the array |
| Normalizer.NormalizeKeepsMeaning | basic_workflow.py:246-255 | normalising preserves what a value means: dict key sets and values, list element order, and every wrapped number and truth value at every level |
| Normalizer.NormalizeFixpoint | basic_workflow.py:246-257 | a value is returned unchanged if and only if it is already in normal form (other values, tuples and non-numpy leaves pass through) |
| Normalizer.NormalizeIdempotent | basic_workflow.py:242-257 | normalising twice is the same as normalising once |
| Normalizer.NormalizeRemovesNumpy | basic_workflow.py:250-257 | the result contains no numpy value anywhere if and only if the input had none inside a tuple and no numpy scalar of another kind |
| Normalizer.NormalizedTreeIsDumpable | basic_workflow.py:197-201 | every tree of dicts, lists, arrays, numpy numbers and bools and plain scalars is accepted by `json.dump` once normalised |
| Normalizer.NormalizeKeepsDumpable | basic_workflow.py:198-201 | normalising never turns a value `json.dump` accepts into one it refuses |
| Workflow.LoadCorridor | basic_workflow.py:88-102 | loading fails exactly when the read raises or the dataset is empty; otherwise the corridor has a positive segment count and the given CRS, or EPSG:4326 with the assumed-CRS warning exactly when none was given |
| Workflow.SaveInteractiveMap | basic_workflow.py:230-239 | the map is saved exactly when the object has `save`; "no map" is warned exactly when it is None; it never fails |
| Workflow.MapOfReports | basic_workflow.py:137 | `reports.get('map')` succeeds exactly on a dict and gives the `map` entry, or None when that key is missing |
| Workflow.SaveStep | basic_workflow.py:119-137 | a save step is skipped exactly when its results entry is absent or None; only the map step can warn, and only with the two map warnings |
| Workflow.SaveStepMeaning | basic_workflow.py:119-137 | a step writes its file exactly when the entry is non-None and json-dumpable after normalising (the map: the reports are a dict whose map has `save`), and raises exactly when the document cannot be dumped or the reports have no `get` |
| Workflow.SaveSteps | basic_workflow.py:116-137 | the save phase raises exactly when one of its steps raises; every file written comes from a writing step |
| Workflow.SaveStepsStop | basic_workflow.py:105-152 | a raising save stops the phase: every file written comes before the raising step |
| Workflow.SaveStepsInOrder | basic_workflow.py:119-137 | files are written in the order risk, vegetation, priorities, map |
| Workflow.SaveStepsComplete | basic_workflow.py:119-137 | a writing step with no raising step before it has its file written |
| Workflow.SaveStepsPrefix | basic_workflow.py:116-152 | earlier writes are never lost: if a file is written, every writing step before it has its file written too |
| Workflow.SaveStepsDiagnostics | basic_workflow.py:134-137 | every save-phase warning comes from a warning step with no raising step before it |
| Workflow.SavePlan | basic_workflow.py:119-137 | the plan holds one step per artifact, in save order, each with what its step does on these results |
| Workflow.SavePlanWritten | basic_workflow.py:105-137 | a file is written exactly when its step writes and no earlier save raised |
| Workflow.SavePlanWarnsLast | basic_workflow.py:134-137 | a save phase that warns did not raise, since the map step is the last one |
| Workflow.SaveResults | basic_workflow.py:105-137 | the save phase raises exactly when some step would; a file is written exactly when its gate holds (`results.get(key) is not None` and writable) and no earlier save raised, so nothing after a raising save is written; order is risk, vegetation, priorities, map; only map warnings are emitted, and only when nothing raised |
| Workflow.DataNeverSaved | basic_workflow.py:119-137 | changing the `data` result changes nothing the save phase does, so no artifact is ever written for it |
| Workflow.Summary | basic_workflow.py:266-279 | a "Completed" line appears for a stage exactly when its key is in the results, in the fixed order data, vegetation, risk, priorities, reports |
| Workflow.SummaryWithoutFile | basic_workflow.py:119-143 | a risk entry that is None gets a summary line but no risk file |
| Workflow.Main | basic_workflow.py:74-152 | exit code is 0 or 1; the assessment starts exactly when (demo or a non-empty corridor argument) and the path exists and the read succeeds with at least one segment, otherwise exit 1 with no CRS, files or summary; once started the CRS is the given one or EPSG:4326 and the warning is emitted exactly when none was given; exit 0 exactly when the assessment returns and no save raises, and then the files are exactly the gated ones and the summary is printed; exit 1 prints no summary; an assessment that raises writes no file, and one that returns writes exactly the gated files no earlier save stopped, on either exit code |
| PyStr.StripLeft | setup.py:17 | the result is the longest suffix whose first character is outside the set; everything cut is in the set |
| PyStr.StripRight | setup.py:17 | the result is the longest prefix whose last character is outside the set; everything cut is in the set |
| PyStr.Strip | setup.py:17 | neither end of the stripped text is in the set, and it is no longer than the input |
| PyStr.StripIsSlice | setup.py:28 | stripping yields a contiguous slice of the input with only set characters cut on either side |
| PyStr.StripPadded | setup.py:28 | padding made of set characters around a core whose ends are outside the set strips back to exactly that core |
| PyStr.StripKeepsAbsent | setup.py:28 | a character absent from the input is absent from the stripped text |
| PyStr.Split | setup.py:28 | `split` on one character gives at least one piece, a single piece exactly when the separator is absent, no piece containing it, and joining the pieces with it gives back the input |
| PyStr.SplitAtFirst | setup.py:28 | the first piece is the text before the first separator, the rest are the pieces of what follows |
| PyStr.SplitNoSeparator | setup.py:28 | text without the separator splits into itself alone |
| Packaging.KeepLines | setup.py:18 | each kept line is non-empty, does not start with `#`, and comes from the input |
| Packaging.ParseRequirements | setup.py:15-18 | every requirement is non-empty, does not start with `#`, and has no leading or trailing whitespace; there are no more requirements than lines |
| Packaging.KeptPositions | setup.py:18 | the kept positions are increasing, in range, and include a line exactly when its stripped text is non-empty and not a comment |
| Packaging.KeepLinesAtPositions | setup.py:18 | the j-th kept line is the line at the j-th kept position |
| Packaging.ParseRequirementsKeepsOrder | setup.py:17-18 | the requirements are exactly the stripped surviving lines in input order: the j-th is the stripped line at the j-th surviving position |
| Packaging.VersionOfLine | setup.py:27-28 | a `__version__` line raises exactly when it has no `=`; the version read contains no `=` and neither starts nor ends with a single quote |
| Packaging.VersionOfLineReadsField | setup.py:28 | for every line `a=b` followed by nothing or by another `=`, the version is `b` stripped of whitespace, then of double quotes, then of single quotes |
| Packaging.SecondField | setup.py:28 | `split('=')[1]` of such a line is `b` |
| Packaging.FirstVersionLine | setup.py:26-27 | finds the first line starting with `__version__`, and finds none exactly when no line does |
| Packaging.GetVersion | setup.py:21-29 | "1.0.0" when the file is missing or no line starts with `__version__`; otherwise what the first such line yields |
| Packaging.GetVersionReadsAssignment | setup.py:21-29 | for an `x` with no `=` that neither starts nor ends with a quote, a first version line `__version__ = "x"` or `__version__ = 'x'` yields exactly `x`, whatever follows it |
| Packaging.VersionOfAssignmentLine | setup.py:28 | for an `x` with no `=` that neither starts nor ends with a quote, such an assignment line, newline included, reads as `x` |
| Packaging.AddAllExtra | setup.py:109-111 | the `all` extra lists every dependency of every extra, nothing else, each once; the other extras are unchanged |

## Left out

- `ROWRiskAssessment` and the `row_risk_manager` package are not part of this model. The assessment's outcome (raise, or a results dict) is an input, so stage ordering and dependency skipping are not modelled.
- `create_sample_corridor_data` (shapely geometry, a float length) is left out. In demo mode the existence of the created file is an input. An exception raised while creating it escapes `main` and is not modelled.
- Reading and writing files, creating the output directory, `json.dump`'s output text, the side effect of `map_obj.save`, and the summary's listing of the files in the output directory are left out. Only which artifacts are produced is modelled. A write that fails for file-system reasons, and a raising `map_obj.save`, are not modelled.
- argparse, the config and verbose options, loguru logging, traceback printing and the summary's fixed banner and "Next Steps" text are left out. The diagnostics record only which warning or error is emitted.
- Dict key order is not modelled: a Python dict and the comprehension that normalises it keep insertion order, which only shows in the text `json.dump` writes, and that text is left out.
- Dict keys are strings. Python allows other hashable keys, and the normaliser keeps them as they are.
- Normalizer.JsonDumpable: `np.timedelta64` subclasses `np.signedinteger`, so the normaliser calls `.item()` on it and gets a `datetime.timedelta`, which `json.dump` refuses. The model has no timedelta: every numpy integer scalar stands for a number.
- Normalizer.JsonDumpable: every numpy floating scalar is treated as a float64, which `json` accepts because it subclasses `float`. A float32 scalar inside a tuple would in fact be refused. Floats are reals, with no NaN or rounding.
- Workflow.MapOfReports: only a dict answers `reports.get('map')`; every other reports value raises. An object with its own `get` (a pandas Series, a non-dict `Mapping`) would run foreign code, so what that call returns or raises is not modelled.
- Workflow.SaveResults: a document save that raises has already created or truncated its file (`open(path, 'w')` runs before `json.dump`), so an empty or partial JSON file is left behind. `artifacts` lists only files that were fully written.
- Normalizer.ToList: arrays hold only numbers or bools. Object, complex and string arrays are not modelled.
- Packaging.AddAllExtra: the order of the `all` list comes from a Python set and depends on string hashing. Only its contents and distinctness are stated.
- The `setup()` call, the static dependency, classifier and entry-point lists, and reading README.md for the long description are left out. The file reads of `parse_requirements` and `get_version` are abstracted as line sequences, and the version file's existence as an `Option`.
- The two scaffolding scripts only print hard-coded dictionaries and are not modelled.
