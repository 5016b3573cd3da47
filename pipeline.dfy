/**
  The validation run as a function of the file store: every stage of
  validate.py takes the two defect counters and the files as they stand
  (a `World`) and gives back its result together with the new `World`.
  The class in validator.dfy performs the same stages imperatively and is
  proved equal to these functions; the properties of the run are lemmas
  about them (pipeline_facts.dfy).
 */
module Pipeline {
  import opened JsonValues
  import opened Rules

  /**
    The code the validator calls into and does not contain:
    - parse: `json.loads` of a file's text; `None` when decoding the file's
      bytes as UTF-8 or parsing raises ValueError (the store below holds each
      file's decoded text, which is what the canonical text is compared with);
    - dumps: `json.dumps` with sorted keys, 4-space indent, `','` and `': '`
      separators and non-ASCII characters left unescaped;
    - show: `str()` of a pack code that is not a string, as used by
      `"{}.json".format(code)`;
    - wellFormedSchema: `Draft4Validator.check_schema` raises no SchemaError;
    - conforms: `jsonschema.validate(doc, schema)` raises no ValidationError;
    - canWrite: opening the path for writing and writing raise no IOError.
   */
  datatype Env = Env(
    parse: string -> Option<Json>,
    dumps: Json -> string,
    show: Json -> string,
    wellFormedSchema: Json -> bool,
    conforms: (Json, Json) -> bool,
    canWrite: string -> bool)

  /** The command line after parsing: fix mode and the three directories. */
  datatype Config = Config(fix: bool, basePath: string, packPath: string, schemaPath: string)

  /**
    `os.path.join(dir, name)` on POSIX: an absolute `name` (a pack code that
    starts with `/`) replaces the directory; otherwise the two are joined with a `/`
    unless the directory already ends in one.
   */
  function Join(dir: string, name: string): string
  {
    if |name| > 0 && name[0] == '/' then name
    else if dir == "" then name
    else if dir[|dir| - 1] == '/' then dir + name
    else dir + "/" + name
  }

  /**
    An absolute name ignores the directory; any other name is placed under
    it, and the joined path ends in the name.
   */
  lemma JoinPlacesName(dir: string, name: string)
    ensures |name| > 0 && name[0] == '/' ==> Join(dir, name) == name
    ensures (|name| == 0 || name[0] != '/') ==> dir <= Join(dir, name)
    ensures EndsWith(Join(dir, name), name)
  {
  }

  /** `s` ends in `suffix`. */
  predicate EndsWith(s: string, suffix: string)
  {
    |suffix| <= |s| && s[|s| - |suffix|..] == suffix
  }

  function CyclesPath(cfg: Config): string { Join(cfg.basePath, "cycles.json") }
  function PacksPath(cfg: Config): string { Join(cfg.basePath, "packs.json") }
  function CycleSchemaPath(cfg: Config): string { Join(cfg.schemaPath, "cycle_schema.json") }
  function PackSchemaPath(cfg: Config): string { Join(cfg.schemaPath, "pack_schema.json") }
  function CardSchemaPath(cfg: Config): string { Join(cfg.schemaPath, "card_schema.json") }

  /** The per-pack card file `<pack_path>/<code>.json`. */
  function PackFilePath(env: Env, cfg: Config, code: Json): string
  {
    Join(cfg.packPath, (if code.JStr? then code.s else env.show(code)) + ".json")
  }

  /**
    The five fixed files: the two indexes under the base directory and the
    three schemas under the schema directory, each path ending in its name.
   */
  lemma FixedPathsPlaced(cfg: Config)
    ensures cfg.basePath <= CyclesPath(cfg) && EndsWith(CyclesPath(cfg), "cycles.json")
    ensures cfg.basePath <= PacksPath(cfg) && EndsWith(PacksPath(cfg), "packs.json")
    ensures cfg.schemaPath <= CycleSchemaPath(cfg) && EndsWith(CycleSchemaPath(cfg), "cycle_schema.json")
    ensures cfg.schemaPath <= PackSchemaPath(cfg) && EndsWith(PackSchemaPath(cfg), "pack_schema.json")
    ensures cfg.schemaPath <= CardSchemaPath(cfg) && EndsWith(CardSchemaPath(cfg), "card_schema.json")
  {
    JoinPlacesName(cfg.basePath, "cycles.json");
    JoinPlacesName(cfg.basePath, "packs.json");
    JoinPlacesName(cfg.schemaPath, "cycle_schema.json");
    JoinPlacesName(cfg.schemaPath, "pack_schema.json");
    JoinPlacesName(cfg.schemaPath, "card_schema.json");
  }

  /**
    A pack's card file is named after its code: the string itself, or `str()`
    of any other value, followed by `.json`. It lies under the pack directory
    unless the code is a string starting with `/`, which replaces the directory.
   */
  lemma PackFilePathPlaced(env: Env, cfg: Config, code: Json)
    ensures code.JStr? ==> EndsWith(PackFilePath(env, cfg, code), code.s + ".json")
    ensures !code.JStr? ==> EndsWith(PackFilePath(env, cfg, code), env.show(code) + ".json")
    ensures code.JStr? && |code.s| > 0 && code.s[0] == '/' ==> PackFilePath(env, cfg, code) == code.s + ".json"
    ensures code.JStr? && (|code.s| == 0 || code.s[0] != '/') ==> cfg.packPath <= PackFilePath(env, cfg, code)
  {
    var name := (if code.JStr? then code.s else env.show(code)) + ".json";
    JoinPlacesName(cfg.packPath, name);
    if code.JStr? && |code.s| > 0 {
      assert name[0] == code.s[0];
    }
  }

  /** The two global defect counters and the file store (path to text). */
  datatype World = World(formatting: nat, validation: nat, files: map<string, string>)

  /**
    Why a run ends early: `open` of a path that is not there raises, a
    declared pack file is missing (`check_file_access` exits), or some other
    exception escapes.
   */
  datatype Abort = OpenFailed(path: string) | PackFileMissing(path: string) | Uncaught

  /** A stage either carries on with a value or the run ends. */
  datatype Step<T> = Next(value: T) | Halt(cause: Abort)

  /** How `main` ends: `sys.exit(code)` after the summary, or early. */
  datatype RunOutcome = Completed(code: nat) | Aborted(cause: Abort)

  /** The process exit status: an early end exits with status 1 as well. */
  function ExitStatus(outcome: RunOutcome): (status: nat)
    ensures status == 0 <==> outcome == Completed(0)
    ensures outcome.Aborted? ==> status == 1
  {
    match outcome
    case Completed(code) => code
    case Aborted(_) => 1
  }

  /** Neither counter goes down, and no file appears or disappears. */
  predicate Grows(w: World, w2: World)
  {
    w.formatting <= w2.formatting && w.validation <= w2.validation && w2.files.Keys == w.files.Keys
  }

  /** `load_json_file` */
  function Load(env: Env, fix: bool, w: World, path: string): (res: (Step<Json>, World))
    ensures res.0.Halt? <==> path !in w.files
    ensures res.0.Halt? ==> res.1 == w
    // one load counts at most one defect
    ensures res.1.formatting + res.1.validation <= w.formatting + w.validation + 1
  {
    if path !in w.files then (Halt(OpenFailed(path)), w)
    else
      var raw := w.files[path];
      match env.parse(raw)
      case None => (Next(JNull), w.(validation := w.validation + 1))
      case Some(doc) =>
        var text := FormatJson(env.dumps, doc);
        if text == raw then (Next(doc), w)
        else
          var files := if fix && |text| > 0 && env.canWrite(path) then w.files[path := text] else w.files;
          (Next(doc), World(w.formatting + 1, w.validation, files))
  }

  /**
    A validation loop over items whose verdicts are `vs`, in list order: one
    validation defect per rejected item it reaches; it ends the run at the
    first item that raises, and otherwise reports whether no item was rejected.
   */
  function Tally(w: World, vs: seq<Verdict>): (res: (Step<bool>, World))
    ensures res.0.Halt? <==> Crash in vs
    ensures res.0 == Next(true) <==> forall i :: 0 <= i < |vs| ==> vs[i] == Pass
    ensures res.1.formatting == w.formatting && res.1.files == w.files
    ensures w.validation <= res.1.validation <= w.validation + |vs|
  {
    var counted := w.(validation := w.validation + Failures(vs));
    if Crash in vs then (Halt(Uncaught), counted)
    else
      FailuresWithoutCrash(vs);
      (Next(Failures(vs) == 0), counted)
  }

  /** `check_json_schema` */
  function CheckSchema(env: Env, w: World, schema: Json): (res: (bool, World))
    ensures res.0 <==> res.1 == w
    ensures !res.0 ==> res.1 == w.(validation := w.validation + 1)
  {
    if env.wellFormedSchema(schema) then (true, w)
    else (false, w.(validation := w.validation + 1))
  }

  /** `validate_cycles`: succeeds only on a list. */
  function ValidateCycles(env: Env, cfg: Config, w: World, data: Json): (res: (Step<bool>, World))
    ensures res.0 == Next(true) ==> data.JArr? && forall i :: 0 <= i < |data.items| ==> data.items[i].JObj?
  {
    var (s, w1) := Load(env, cfg.fix, w, CycleSchemaPath(cfg));
    if s.Halt? then (Halt(s.cause), w1)
    else if !data.JArr? || !Truthy(s.value) then (Next(false), w1)
    else
      var (ok, w2) := CheckSchema(env, w1, s.value);
      if !ok then (Next(false), w2)
      else
        var vs := CycleVerdicts(env.conforms, data.items, s.value);
        assert forall i :: 0 <= i < |vs| ==> vs[i] == CycleVerdict(env.conforms, data.items[i], s.value);
        Tally(w2, vs)
  }

  /** `validate_packs`: succeeds only on a list. */
  function ValidatePacks(env: Env, cfg: Config, w: World, data: Json, cycles: Option<seq<Json>>): (res: (Step<bool>, World))
    ensures res.0 == Next(true) ==> data.JArr? && forall i :: 0 <= i < |data.items| ==> data.items[i].JObj?
  {
    var (s, w1) := Load(env, cfg.fix, w, PackSchemaPath(cfg));
    if s.Halt? then (Halt(s.cause), w1)
    else if !data.JArr? || !Truthy(s.value) then (Next(false), w1)
    else
      var (ok, w2) := CheckSchema(env, w1, s.value);
      if !ok then (Next(false), w2)
      else
        var vs := PackVerdicts(env.conforms, data.items, s.value, cycles);
        assert forall i :: 0 <= i < |vs| ==> vs[i] == PackVerdict(env.conforms, data.items[i], s.value, cycles);
        Tally(w2, vs)
  }

  /** `load_cycles`: the cycle list, or `None` when it did not validate. */
  function LoadCycles(env: Env, cfg: Config, w: World): (res: (Step<Option<seq<Json>>>, World))
    ensures res.0.Next? && res.0.value.Some? ==> forall i :: 0 <= i < |res.0.value.value| ==> res.0.value.value[i].JObj?
  {
    var (s, w1) := Load(env, cfg.fix, w, CyclesPath(cfg));
    if s.Halt? then (Halt(s.cause), w1)
    else
      var (ok, w2) := ValidateCycles(env, cfg, w1, s.value);
      if ok.Halt? then (Halt(ok.cause), w2)
      else if !ok.value then (Next(None), w2)
      else (Next(Some(s.value.items)), w2)
  }

  /**
    The loop of `load_pack_index` over the declared packs: the first pack
    without a code raises, the first whose file is not there ends the run.
   */
  function CheckPackFiles(env: Env, cfg: Config, files: map<string, string>, packs: seq<Json>): (r: Option<Abort>)
    ensures r.None? <==> forall i :: 0 <= i < |packs| ==>
      Lookup(packs[i], "code").Some? && PackFilePath(env, cfg, Lookup(packs[i], "code").value) in files
  {
    if packs == [] then None
    else
      match Lookup(packs[0], "code")
      case None => Some(Uncaught)
      case Some(code) =>
        if PackFilePath(env, cfg, code) !in files then Some(PackFileMissing(PackFilePath(env, cfg, code)))
        else CheckPackFiles(env, cfg, files, packs[1..])
  }

  /** `load_pack_index`: the pack list, or `None` when it did not validate. */
  function LoadPackIndex(env: Env, cfg: Config, w: World, cycles: Option<seq<Json>>): (res: (Step<Option<seq<Json>>>, World))
    ensures res.0.Next? && res.0.value.Some? ==> forall i :: 0 <= i < |res.0.value.value| ==>
      && res.0.value.value[i].JObj?
      && Lookup(res.0.value.value[i], "code").Some?
      && PackFilePath(env, cfg, Lookup(res.0.value.value[i], "code").value) in res.1.files
  {
    var (s, w1) := Load(env, cfg.fix, w, PacksPath(cfg));
    if s.Halt? then (Halt(s.cause), w1)
    else
      var (ok, w2) := ValidatePacks(env, cfg, w1, s.value, cycles);
      if ok.Halt? then (Halt(ok.cause), w2)
      else if !ok.value then (Next(None), w2)
      else
        match CheckPackFiles(env, cfg, w2.files, s.value.items)
        case Some(cause) => (Halt(cause), w2)
        case None => (Next(Some(s.value.items)), w2)
  }

  /**
    One pass of the outer loop of `validate_cards`: load the pack's card
    file, skip it when it is falsy (unparsable or empty), else validate
    every card in it.
   */
  function CardsOfPack(env: Env, cfg: Config, w: World, schema: Json, pack: Json): (res: (Step<()>, World))
    // one pack file is loaded: at most one formatting defect, and only that file may change
    ensures w.formatting <= res.1.formatting <= w.formatting + 1
  {
    match (Lookup(pack, "name"), Lookup(pack, "code"))
    case (Some(_), Some(code)) =>
      var (s, w1) := Load(env, cfg.fix, w, PackFilePath(env, cfg, code));
      if s.Halt? then (Halt(s.cause), w1)
      else if !Truthy(s.value) then (Next(()), w1)
      // iterating a non-empty object or string yields strings, and
      // `card["name"]` on a string raises; numbers and True are not iterable
      else if !s.value.JArr? then (Halt(Uncaught), w1)
      else
        var (t, w2) := Tally(w1, CardVerdicts(env.conforms, s.value.items, schema, code));
        if t.Halt? then (Halt(t.cause), w2) else (Next(()), w2)
    case _ => (Halt(Uncaught), w)
  }

  /** The outer loop of `validate_cards` over the packs, in list order. */
  function CardsOfPacks(env: Env, cfg: Config, w: World, schema: Json, packs: seq<Json>): (res: (Step<()>, World))
    ensures w.formatting <= res.1.formatting <= w.formatting + |packs|
    decreases |packs|
  {
    if packs == [] then (Next(()), w)
    else
      var (s, w1) := CardsOfPacks(env, cfg, w, schema, packs[..|packs| - 1]);
      if s.Halt? then (s, w1) else CardsOfPack(env, cfg, w1, schema, packs[|packs| - 1])
  }

  /** `validate_cards`: the card schema is loaded and self-checked once. */
  function ValidateCards(env: Env, cfg: Config, w: World, packs: seq<Json>): (res: (Step<()>, World))
    ensures w.formatting <= res.1.formatting <= w.formatting + 1 + |packs|
  {
    var (s, w1) := Load(env, cfg.fix, w, CardSchemaPath(cfg));
    if s.Halt? then (Halt(s.cause), w1)
    else if !Truthy(s.value) then (Next(()), w1)
    else
      var (ok, w2) := CheckSchema(env, w1, s.value);
      if !ok then (Next(()), w2)
      else CardsOfPacks(env, cfg, w2, s.value, packs)
  }

  /** The stages of `main` once the command line is parsed. */
  function Run(env: Env, cfg: Config, files: map<string, string>): (res: (RunOutcome, World))
    ensures res.0.Completed? ==> (res.0.code == 0 <==> res.1.formatting == 0 && res.1.validation == 0)
    ensures res.0.Completed? ==> res.0.code <= 1
  {
    var (c, w1) := LoadCycles(env, cfg, World(0, 0, files));
    if c.Halt? then (Aborted(c.cause), w1)
    else
      var (p, w2) := LoadPackIndex(env, cfg, w1, c.value);
      if p.Halt? then (Aborted(p.cause), w2)
      else
        var (k, w3) :=
          if p.value.Some? && p.value.value != [] then ValidateCards(env, cfg, w2, p.value.value)
          else (Next(()), w2);
        if k.Halt? then (Aborted(k.cause), w3)
        else (Completed(if w3.formatting == 0 && w3.validation == 0 then 0 else 1), w3)
  }
}
