# validate.py, modelled in Dafny

`validate.py` checks a thronesdb card-data repository. The repository holds:
- a cycle index, `cycles.json`;
- a pack index, `packs.json`;
- one card file per pack, `pack/<code>.json`;
- three JSON schemas.

Each file is loaded and compared with its canonical serialisation. A formatting defect is counted when the two differ, and fix mode rewrites the file. Each item of the three lists is then validated against its schema plus two cross-reference rules:
- a pack's `cycle_code` must be the code of a known cycle;
- a card's `pack_code` must be the code of the pack file it sits in.

Every rejection adds one validation defect. A rejection never stops the items after it. The process exits 0 exactly when the run reaches the end with both counters at 0.

The project has five modules:

- `JsonValues` (json_values.dfy): parsed JSON values (integers and floats kept apart, as `json.loads` does), Python truthiness, and Python's `doc[key]`.
- `Rules` (rules.dfy): the pure parts.
  - `format_json`.
  - The two cross-reference rules.
  - The verdict each list item gets inside its `try`: accepted, rejected (`ValidationError`, counted), or an uncaught exception that ends the run.
  - `Failures`, the number of defects a validation loop adds.
- `Pipeline` (pipeline.dfy): every stage as a function from the state to a result and a new state. The state is a `World`: the two counters plus the file store, a map from path to decoded text. `Grows` says that neither counter went down and no path appeared or disappeared. `Run` is `main` after the command line has been parsed.
- `Validate` (validator.dfy): class `Validator`, which mirrors the module-level state of the script. It has two `nat` fields, `formattingErrors` and `validationErrors`, and the field `files`. Each stage is a method that updates these in place with the script's own loops. Every method is proved to return exactly what a function of the pure layers gives, and to leave the state that function gives: the stage methods match their `Pipeline` function, the shared `retval` loop matches `Pipeline.Tally` of the items' verdicts, and `ValidateCard` matches `Rules.CardVerdict`.
- `PipelineFacts` (pipeline_facts.dfy): what the run promises, proved about the `Pipeline` functions.

Code the script calls but does not contain is passed in as the function fields of `Pipeline.Env`:
- reading plus UTF-8 decoding plus `json.loads`;
- `json.dumps` with the canonical settings;
- `str()` of a non-string pack code;
- Draft-4 `check_schema`;
- `jsonschema.validate`;
- whether a file can be written.

An uncaught exception becomes `Halt(Uncaught)`: a KeyError, TypeError or AttributeError on a malformed item. An `open` of a missing path becomes `Halt(OpenFailed(path))`. A missing pack file ends the run in `check_file_access`; that becomes `Halt(PackFileMissing(path))`. `Run` then returns `Aborted`, and the process exit status of an abort is 1, as Python's is.

How the stages hang together in the code:
- A failed cycle stage does not stop the later stages: `main` still runs `load_pack_index`, passing it `None` (validate.py:240-242).
- With `cycles_data` `None`, `custom_pack_check` raises TypeError on the first pack that keeps the pack schema (validate.py:47). The model makes this an abort (`PipelineFacts.PacksWithoutCyclesRaise`).
- `validate_cycles` and `validate_packs` load their schema before they test whether the index is a list (validate.py:172-173, 201-202). So even an index that is not a list can count a defect for an unparsable schema.

## Model

| member | source | states |
|---|---|---|
| `JsonValues.FalsyValues` | validate.py:151 | the values Python's `not` holds for are exactly `None`, `False`, `0`, `0.0`, `""`, `[]` and `{}`; these are what the `if not ...` gates on schemas and pack files skip |
| `JsonValues.LookupSucceedsIff` | validate.py:43 | `doc[key]` succeeds exactly on an object that holds `key`, and then gives that member; on anything else it raises |
| `Rules.FormatJson` | validate.py:50-53 | the canonical text is never empty and ends in a newline, so the fix-mode length guard always holds |
| `Rules.CycleCodes` | validate.py:47 | the list of cycle codes exists exactly when every cycle has a `code`; it then has one entry per cycle, in order, each that cycle's code |
| `Rules.CustomCardCheck` | validate.py:41-44 | a card is accepted exactly when its `pack_code` equals the pack's code. It is rejected exactly when `pack_code` is present and differs and the card has a `code`. Any other case raises |
| `Rules.CustomPackCheck` | validate.py:46-48 | a pack is accepted exactly when its `cycle_code` is the `code` of some cycle. It is rejected exactly when `cycle_code` matches no cycle and the pack has a `code`. A missing `cycle_code`, a cycle without a code, or no cycle list (`None`) raises |
| `Rules.CycleVerdict` | validate.py:182-192 | a cycle raises exactly when it is not an object, and is accepted exactly when it is an object that keeps the schema |
| `Rules.PackVerdictIff` | validate.py:211-222 | a pack is accepted exactly when it is an object that keeps the schema and passes the cycle check; it is rejected exactly when it is an object that breaks the schema or fails that check |
| `Rules.CardVerdict` | validate.py:131-143 | a card is accepted exactly when it has a name, keeps the schema and names this pack; it is rejected exactly when it has a name and either breaks the schema or names another pack and has a code |
| `Rules.Failures` | validate.py:190 | a loop never adds more defects than it has items |
| `Rules.FailuresSplit` | validate.py:181-194 | the defects of a loop over two consecutive stretches add up; none are counted after an item that raised |
| `Rules.FailuresWithoutCrash` | validate.py:181-194 | in a loop where nothing raises, no defect is added exactly when every item passes, so `retval` stays true exactly then |
| `Rules.FailuresCountsRejected` | validate.py:187-192 | in a loop where nothing raises, the defects added are exactly the number of rejected items |
| `Rules.RejectionDoesNotStop` | validate.py:187-192 | a rejected item adds one defect, and the items after it are still counted up to the first of them that raises; nothing is assumed about the items after that |
| `Rules.FailuresExtend` | validate.py:182-192 | one more loop pass adds one defect exactly when its item is rejected |
| `Rules.FailuresStopAt` | validate.py:182-185 | the loop ends at its first raising item, having counted exactly the items before it |
| `Rules.OneBadCycleOneDefect` | validate.py:181-194 | a schema-breaking cycle followed by a conforming one gives exactly one defect, and the second cycle is still accepted |
| `Pipeline.JoinPlacesName` | validate.py:159 | `os.path.join` with an absolute name gives that name; any other name is placed under the directory; the joined path always ends in the name |
| `Pipeline.FixedPathsPlaced` | validate.py:88 | the cycle and pack indexes are looked up as `cycles.json` and `packs.json` under the base path, and the three schemas as `cycle_schema.json`, `pack_schema.json` and `card_schema.json` under the schema path (also lines 98, 148, 171, 200) |
| `Pipeline.PackFilePathPlaced` | validate.py:105-106 | a pack's card file is `<code>.json`, with a non-string code first turned into text by `str()`; it lies under the pack path unless the code is an absolute path, which then names the file itself (the same path is rebuilt at line 159) |
| `Pipeline.ExitStatus` | validate.py:250-253 | the process exits 0 exactly when the run reached the end with code 0; an uncaught exception or a `sys.exit` with a message gives status 1 |
| `Pipeline.Load` | validate.py:55-84 | loading ends the run exactly when the path is not in the store, and then changes nothing; one load counts at most one defect |
| `Pipeline.Tally` | validate.py:181-194 | a validation loop ends the run exactly when some item raises, and reports true exactly when every item passes. It touches only the validation counter, raising it by at most the number of items |
| `Pipeline.CheckSchema` | validate.py:30-39 | the state is left as it was exactly when the schema is well-formed; otherwise exactly one validation defect is added |
| `Pipeline.ValidateCycles` | validate.py:167-194 | `validate_cycles` answers true only for a list whose every item is an object |
| `Pipeline.ValidatePacks` | validate.py:196-224 | `validate_packs` answers true only for a list whose every item is an object |
| `Pipeline.LoadCycles` | validate.py:86-94 | a cycle list that `load_cycles` hands on holds only objects |
| `Pipeline.CheckPackFiles` | validate.py:104-107 | the file check passes for every pack exactly when every pack has a code and its `<code>.json` is in the store |
| `Pipeline.LoadPackIndex` | validate.py:96-109 | a pack list that `load_pack_index` hands on holds only objects, each with a code whose card file is in the store |
| `Pipeline.CardsOfPack` | validate.py:157-165 | one pass of the pack loop loads one file, so it adds at most one formatting defect |
| `Pipeline.CardsOfPacks` | validate.py:156-165 | the pack loop adds at most one formatting defect per pack |
| `Pipeline.ValidateCards` | validate.py:145-165 | `validate_cards` adds at most one formatting defect for the schema plus one per pack |
| `Pipeline.Run` | validate.py:231-253 | a run that reaches the end exits with 0 or 1, and with 0 exactly when both counters are 0 |
| `PipelineFacts.CardsHaltPersists` | validate.py:156-165 | once the card loop has stopped on some pack, the later packs change nothing |
| `PipelineFacts.TallyStopped` | validate.py:182-185 | a loop that stopped on a raising item has counted exactly the items before it |
| `PipelineFacts.TallyWithoutCrash` | validate.py:181-194 | a loop without a raise adds one defect per rejected item and reports true exactly when all passed |
| `PipelineFacts.LoadMissingFile` | validate.py:59-60 | a path that is not there ends the run, with nothing counted or written |
| `PipelineFacts.LoadUnparsable` | validate.py:58-67 | an unparsable file gives `None` and exactly one validation defect; the formatting counter and the files do not change |
| `PipelineFacts.LoadParsed` | validate.py:69-84 | a parsed file gives its document whatever its formatting. The formatting counter goes up by exactly one when the canonical text differs, and the validation counter does not change. The file is replaced by the canonical text only in fix mode, on a mismatch, when the write succeeds; a failed write changes nothing |
| `PipelineFacts.FixedFileIsClean` | validate.py:70-80 | after a fix-mode rewrite, loading the file again counts nothing, as long as the parser reads the canonical text back as the same document |
| `PipelineFacts.CheckSchemaCounts` | validate.py:30-39 | `check_json_schema` answers whether the schema is well-formed and adds one defect exactly when it is not |
| `PipelineFacts.CyclesNotListValidatesNone` | validate.py:171-175 | a cycle index that is not a list gives false, and only the schema load has counted anything |
| `PipelineFacts.CyclesSchemaUnusable` | validate.py:176-179 | an absent, empty or ill-formed cycle schema gives false and validates no cycle; an ill-formed schema adds one defect |
| `PipelineFacts.CyclesAcceptedIffAllConform` | validate.py:181-194 | with a usable schema, every cycle is checked in order: one defect per cycle that breaks the schema, and true exactly when all keep it |
| `PipelineFacts.PacksNotListValidatesNone` | validate.py:200-204 | a pack index that is not a list gives false, and only the schema load has counted anything |
| `PipelineFacts.PacksSchemaUnusable` | validate.py:205-208 | an absent, empty or ill-formed pack schema gives false and validates no pack; an ill-formed schema adds one defect |
| `PipelineFacts.PacksAcceptedIffAllPass` | validate.py:210-224 | with a usable schema and no raise, one defect per rejected pack, and true exactly when every pack keeps the schema and names a known cycle |
| `PipelineFacts.PacksWithoutCyclesRaise` | validate.py:46-47 | when the cycle stage failed, a pack that keeps the schema makes the run end |
| `PipelineFacts.LoadCyclesNoneIffRejected` | validate.py:86-94 | `load_cycles` gives `None` exactly when the cycle index was rejected; otherwise it hands on the loaded list |
| `PipelineFacts.LoadPackIndexResult` | validate.py:96-109 | `load_pack_index` gives `None` exactly when the pack index was rejected. A list it hands on validated, and every pack in it has a code whose card file is in the store |
| `PipelineFacts.CardsSchemaUnusable` | validate.py:148-154 | an absent, empty or ill-formed card schema validates no card; an ill-formed schema adds one defect |
| `PipelineFacts.SkippedPackContinues` | validate.py:156-162 | a pack whose card file did not parse or is empty is skipped after loading, and the loop goes on |
| `PipelineFacts.PackCardsCounted` | validate.py:159-165 | over one pack file without a raise, each card that breaks the schema or names another pack adds exactly one defect |
| `PipelineFacts.LoadGrows` | validate.py:65-80 | the loader never lowers a counter and never adds or removes a file |
| `PipelineFacts.ValidateCyclesGrows` | validate.py:167-194 | `validate_cycles` never lowers a counter and never adds or removes a file |
| `PipelineFacts.ValidatePacksGrows` | validate.py:196-224 | `validate_packs` never lowers a counter and never adds or removes a file |
| `PipelineFacts.LoadCyclesGrows` | validate.py:86-94 | `load_cycles` never lowers a counter and never adds or removes a file |
| `PipelineFacts.LoadPackIndexGrows` | validate.py:96-109 | `load_pack_index` never lowers a counter and never adds or removes a file |
| `PipelineFacts.CardsOfPackGrows` | validate.py:157-165 | one pass of the pack loop never lowers a counter and never adds or removes a file |
| `PipelineFacts.CardsOfPacksGrows` | validate.py:156-165 | the whole pack loop never lowers a counter and never adds or removes a file |
| `PipelineFacts.ValidateCardsGrows` | validate.py:145-165 | `validate_cards` never lowers a counter and never adds or removes a file |
| `PipelineFacts.RunCountersNeverDecrease` | validate.py:235-247 | the counters start at 0 and no later stage lowers them; no file appears or disappears during a run |
| `PipelineFacts.RunCardsOnlyAfterPacks` | validate.py:244-247 | the card stage runs exactly when the pack index came back as a non-empty list; otherwise the run ends right after the pack stage |
| `PipelineFacts.RunExitsZeroIffClean` | validate.py:249-253 | the exit status is 0 exactly when the run reached the end with both counters at 0 |
| `PipelineFacts.CleanLoad` | validate.py:69-84 | a canonical file loads as its document and counts nothing |
| `PipelineFacts.AllPassTally` | validate.py:181-194 | a loop in which every item passes counts nothing and answers true |
| `PipelineFacts.CleanPackAddsNothing` | validate.py:157-165 | a canonical pack file whose cards all pass changes no counter and no file |
| `PipelineFacts.CleanPacksAddNothing` | validate.py:156-165 | canonical pack files whose cards all pass change no counter and no file |
| `PipelineFacts.CleanCycles` | validate.py:86-94 | a canonical cycle index whose cycles all keep a usable schema is handed on unchanged, with nothing counted |
| `PipelineFacts.CleanPacksHaveFiles` | validate.py:104-107 | a pack that counts as clean has a code and its card file is in the store, so the file check lets it through |
| `PipelineFacts.CleanPackIndex` | validate.py:96-109 | a canonical pack index whose packs all pass and have their card files is handed on unchanged, with nothing counted |
| `PipelineFacts.CleanRepositoryExitsZero` | validate.py:231-253 | a repository where every file is canonical and every item passes ends with both counters at 0, exit status 0 and no file rewritten |
| `PipelineFacts.PassingPackAddsOnlyLoad` | validate.py:157-165 | over a pack whose card file parses to a non-empty list of passing cards, one pass of the pack loop changes only what loading that file changes |
| `PipelineFacts.OneMisformattedCardFile` | validate.py:231-253 | a repository that is clean except that the one pack's card file differs from its canonical text ends with exactly one formatting defect, no validation defect and exit code 1; in fix mode, when the write succeeds, that file alone is replaced by its canonical text, and otherwise no file changes |
| `Validate.Validator.constructor` | validate.py:11-12 | both counters start at 0 |
| `Validate.Validator.LoadJsonFile` | validate.py:55-84 | `load_json_file` returns and updates exactly what `Pipeline.Load` gives |
| `Validate.Validator.CheckJsonSchema` | validate.py:30-39 | `check_json_schema` returns and updates exactly what `Pipeline.CheckSchema` gives |
| `Validate.Validator.ValidateCycles` | validate.py:167-179 | the gates of `validate_cycles` equal `Pipeline.ValidateCycles` |
| `Validate.Validator.CheckCycles` | validate.py:181-194 | the loop over the cycles equals `Pipeline.Tally` of the cycle verdicts |
| `Validate.Validator.CheckItems` | validate.py:181-194 | the `retval` loop that `validate_cycles` and `validate_packs` (lines 210-224) share equals `Pipeline.Tally` of the items' verdicts: it adds `Failures` of them and stops at the first raise |
| `Validate.Validator.ValidatePacks` | validate.py:196-208 | the gates of `validate_packs` equal `Pipeline.ValidatePacks` |
| `Validate.Validator.CheckPacks` | validate.py:210-224 | the loop over the packs equals `Pipeline.Tally` of the pack verdicts |
| `Validate.Validator.LoadCycles` | validate.py:86-94 | `load_cycles` equals `Pipeline.LoadCycles` |
| `Validate.Validator.LoadPackIndex` | validate.py:96-109 | `load_pack_index`, with its file-check loop, equals `Pipeline.LoadPackIndex` |
| `Validate.Validator.ValidateCard` | validate.py:131-143 | `validate_card` raises exactly on a raising verdict, and adds one defect exactly on a rejection |
| `Validate.Validator.ValidateCards` | validate.py:145-154 | the schema gates of `validate_cards` equal `Pipeline.ValidateCards` |
| `Validate.Validator.CheckCardsOfPacks` | validate.py:156-165 | the loop over the packs equals `Pipeline.CardsOfPacks`; a raise inside one pack leaves the loop |
| `Validate.Validator.ValidatePackCards` | validate.py:157-165 | one pass over a pack, with its `continue` over a falsy pack file, equals `Pipeline.CardsOfPack` |
| `Validate.Validator.CheckCards` | validate.py:164-165 | the card loop of one pack file adds `Failures` of the card verdicts and stops at the first raise |
| `Validate.Validator.Run` | validate.py:231-253 | `main` after the command line: reset, the three stages, the exit code; equals `Pipeline.Run` |

## Left out

- Command-line parsing and the directory checks (`parse_commandline`, `check_dir_access`) are not modelled, and neither are the defaults `pack` and `schema` under the base path. `Pipeline.Config` is the parsed result.
- The readability half of `check_file_access` is not modelled. A declared pack file counts as present when its path is in the store.
- `verbose_print`, the printed exceptions and the summary line are left out. They only write to stdout.
- The internals of `json.loads`, `json.dumps`, UTF-8 decoding, `str()` and the Draft-4 checks of `jsonschema` are functions the model takes as parameters (`Pipeline.Env`). Only the trailing newline of `format_json` is stated.
- JSON values are compared structurally. Python's cross-type equalities (`True == 1`, `1 == 1.0`) are not modelled, so `card["pack_code"] != pack_code` and the `cycle_code` membership test treat `1` and `1.0` (or `true` and `1`) as different codes, where Python treats them as equal. NaN comparisons are not modelled, and floats are exact reals rather than IEEE doubles.
- Writes are not modelled as real I/O. A successful rewrite replaces one entry of the file map, and a failing write (`IOError`) changes nothing.
- `os.path.join` is modelled for POSIX paths only.
- `Pipeline.Load`: two behaviours of `load_json_file` are not captured. (1) `json.loads` accepts a lone surrogate escape such as `"\ud800"`; in fix mode `open(path, "wb")` (validate.py:78) then empties the file and `.encode("utf-8")` (validate.py:79) raises `UnicodeEncodeError`, which the `except IOError` at line 81 does not catch, so the run aborts with the file left empty. A Dafny string cannot hold a lone surrogate, so the model never produces this abort. (2) The file store is keyed by the path as spelled, not by the file it names: two spellings of one file (a pack code `../cycles` gives `pack/../cycles.json`, validate.py:105-106, 159) are independent entries, so after a rewrite through one spelling the model still reads the old text through the other and can count a second formatting defect where the script counts none.
- Python's `sys.exit` and uncaught exceptions are not distinguished by their messages; all of them end the run with status 1.
