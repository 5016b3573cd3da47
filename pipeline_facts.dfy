/**
  What the validation run promises, proved about the functions of module
  Pipeline: what the loader counts and rewrites, which stage gates which,
  which items reach validation, how much each defect adds, that the counters
  never go down, and when the run exits with status 0.
 */
module PipelineFacts {
  import opened JsonValues
  import opened Rules
  import opened Pipeline

  /** Once the card loop has stopped on some pack, the later packs change nothing. */
  lemma {:induction false} CardsHaltPersists(env: Env, cfg: Config, w: World, schema: Json, packs: seq<Json>, k: nat)
    requires k <= |packs|
    requires CardsOfPacks(env, cfg, w, schema, packs[..k]).0.Halt?
    ensures CardsOfPacks(env, cfg, w, schema, packs) == CardsOfPacks(env, cfg, w, schema, packs[..k])
  {
    if k < |packs| {
      var front := packs[..|packs| - 1];
      assert front[..k] == packs[..k];
      CardsHaltPersists(env, cfg, w, schema, front, k);
    } else {
      assert packs[..k] == packs;
    }
  }

  /**
    A loop that got through every item without a raise reports whether none
    was rejected: the loop-exit step of the `retval` loops in validator.dfy,
    where the processed prefix has become the whole list.
   */
  lemma TallyFinished(w: World, vs: seq<Verdict>, i: nat)
    requires i == |vs| && Crash !in vs[..i]
    ensures Tally(w, vs) == (Next(Failures(vs[..i]) == 0), w.(validation := w.validation + Failures(vs[..i])))
  {
    assert vs[..i] == vs;
  }

  /** A loop that stopped on its first raising item has counted the items before it. */
  lemma TallyStopped(w: World, vs: seq<Verdict>, i: nat)
    requires i < |vs| && vs[i] == Crash && Crash !in vs[..i]
    ensures Tally(w, vs) == (Halt(Uncaught), w.(validation := w.validation + Failures(vs[..i])))
  {
    FailuresStopAt(vs, i);
  }

  /**
    A validation loop in which no item raises reaches every item: it adds one
    defect per rejected item and reports true exactly when every item passed.
   */
  lemma TallyWithoutCrash(w: World, vs: seq<Verdict>)
    requires Crash !in vs
    ensures Tally(w, vs) == (Next(forall i :: 0 <= i < |vs| ==> vs[i] == Pass), w.(validation := w.validation + multiset(vs)[Fail]))
  {
    FailuresCountsRejected(vs);
    FailuresWithoutCrash(vs);
  }

  // ---------------------------------------------------------------------
  // load_json_file

  /** A path that is not there: `open` raises, nothing is counted or written. */
  lemma LoadMissingFile(env: Env, fix: bool, w: World, path: string)
    requires path !in w.files
    ensures Load(env, fix, w, path) == (Halt(OpenFailed(path)), w)
  {
  }

  /** An unparsable file yields `None` and exactly one validation defect, and is never rewritten. */
  lemma LoadUnparsable(env: Env, fix: bool, w: World, path: string)
    requires path in w.files && env.parse(w.files[path]).None?
    ensures Load(env, fix, w, path) == (Next(JNull), w.(validation := w.validation + 1))
  {
  }

  /**
    A parsed file yields its document whatever its formatting; a formatting
    defect is counted exactly when the canonical text differs from the file,
    and the file is replaced by the canonical text exactly in fix mode, on a
    mismatch, when the write succeeds. A failed write changes nothing more.
   */
  lemma LoadParsed(env: Env, fix: bool, w: World, path: string, doc: Json)
    requires path in w.files && env.parse(w.files[path]) == Some(doc)
    ensures var canonical := FormatJson(env.dumps, doc);
      var mismatch := canonical != w.files[path];
      Load(env, fix, w, path) == (Next(doc), World(
        w.formatting + (if mismatch then 1 else 0),
        w.validation,
        if fix && mismatch && env.canWrite(path) then w.files[path := canonical] else w.files))
  {
  }

  /**
    After a fix-mode rewrite, loading the file again finds it clean, as long
    as the parser reads the canonical text back as the same document.
   */
  lemma FixedFileIsClean(env: Env, w: World, path: string, doc: Json)
    requires path in w.files && env.parse(w.files[path]) == Some(doc)
    requires env.canWrite(path)
    requires env.parse(FormatJson(env.dumps, doc)) == Some(doc)
    ensures var w1 := Load(env, true, w, path).1;
      Load(env, true, w1, path) == (Next(doc), w1)
  {
    var w1 := Load(env, true, w, path).1;
    assert w1.files[path] == FormatJson(env.dumps, doc);
  }

  /** `check_json_schema`: one validation defect exactly when the schema is not well-formed. */
  lemma CheckSchemaCounts(env: Env, w: World, schema: Json)
    ensures CheckSchema(env, w, schema) ==
      (env.wellFormedSchema(schema), w.(validation := w.validation + if env.wellFormedSchema(schema) then 0 else 1))
  {
  }

  // ---------------------------------------------------------------------
  // validate_cycles and validate_packs

  /**
    An index that is not a list validates no item: the stage answers false
    and only loading its schema has counted anything.
   */
  lemma CyclesNotListValidatesNone(env: Env, cfg: Config, w: World, data: Json)
    requires !data.JArr?
    ensures var (s, w1) := Load(env, cfg.fix, w, CycleSchemaPath(cfg));
      ValidateCycles(env, cfg, w, data) == (if s.Halt? then Halt(s.cause) else Next(false), w1)
  {
  }

  /**
    An absent, empty or ill-formed cycle schema validates no cycle: false,
    and one defect more than the schema load only when the schema is truthy
    but not well-formed.
   */
  lemma CyclesSchemaUnusable(env: Env, cfg: Config, w: World, cycles: seq<Json>, schema: Json)
    requires Load(env, cfg.fix, w, CycleSchemaPath(cfg)).0 == Next(schema)
    requires !Truthy(schema) || !env.wellFormedSchema(schema)
    ensures var w1 := Load(env, cfg.fix, w, CycleSchemaPath(cfg)).1;
      ValidateCycles(env, cfg, w, JArr(cycles)) ==
        (Next(false), w1.(validation := w1.validation + if Truthy(schema) then 1 else 0))
  {
  }

  /**
    With a usable schema and a list of objects, every cycle is checked: one
    defect per cycle that breaks the schema, and true exactly when all keep it.
   */
  lemma CyclesAcceptedIffAllConform(env: Env, cfg: Config, w: World, cycles: seq<Json>, schema: Json)
    requires Load(env, cfg.fix, w, CycleSchemaPath(cfg)).0 == Next(schema)
    requires Truthy(schema) && env.wellFormedSchema(schema)
    requires forall i :: 0 <= i < |cycles| ==> cycles[i].JObj?
    ensures var w1 := Load(env, cfg.fix, w, CycleSchemaPath(cfg)).1;
      var vs := CycleVerdicts(env.conforms, cycles, schema);
      ValidateCycles(env, cfg, w, JArr(cycles)) == (
        Next(forall i :: 0 <= i < |cycles| ==> env.conforms(cycles[i], schema)),
        w1.(validation := w1.validation + multiset(vs)[Fail]))
  {
    var (_, w1) := Load(env, cfg.fix, w, CycleSchemaPath(cfg));
    var vs := CycleVerdicts(env.conforms, cycles, schema);
    forall i | 0 <= i < |cycles|
      ensures vs[i] != Crash && (vs[i] == Pass <==> env.conforms(cycles[i], schema))
    {
    }
    TallyWithoutCrash(w1, vs);
  }

  /** `validate_packs` on something other than a list validates no pack. */
  lemma PacksNotListValidatesNone(env: Env, cfg: Config, w: World, data: Json, cycles: Option<seq<Json>>)
    requires !data.JArr?
    ensures var (s, w1) := Load(env, cfg.fix, w, PackSchemaPath(cfg));
      ValidatePacks(env, cfg, w, data, cycles) == (if s.Halt? then Halt(s.cause) else Next(false), w1)
  {
  }

  /** An absent, empty or ill-formed pack schema validates no pack. */
  lemma PacksSchemaUnusable(env: Env, cfg: Config, w: World, packs: seq<Json>, schema: Json, cycles: Option<seq<Json>>)
    requires Load(env, cfg.fix, w, PackSchemaPath(cfg)).0 == Next(schema)
    requires !Truthy(schema) || !env.wellFormedSchema(schema)
    ensures var w1 := Load(env, cfg.fix, w, PackSchemaPath(cfg)).1;
      ValidatePacks(env, cfg, w, JArr(packs), cycles) ==
        (Next(false), w1.(validation := w1.validation + if Truthy(schema) then 1 else 0))
  {
  }

  /**
    With a usable schema and no pack that raises, every pack is checked: one
    defect per rejected pack, and true exactly when every pack keeps the
    schema and names a known cycle.
   */
  lemma PacksAcceptedIffAllPass(env: Env, cfg: Config, w: World, packs: seq<Json>, schema: Json, cycles: Option<seq<Json>>)
    requires Load(env, cfg.fix, w, PackSchemaPath(cfg)).0 == Next(schema)
    requires Truthy(schema) && env.wellFormedSchema(schema)
    requires Crash !in PackVerdicts(env.conforms, packs, schema, cycles)
    ensures var w1 := Load(env, cfg.fix, w, PackSchemaPath(cfg)).1;
      var vs := PackVerdicts(env.conforms, packs, schema, cycles);
      ValidatePacks(env, cfg, w, JArr(packs), cycles) == (
        Next(forall i :: 0 <= i < |packs| ==> env.conforms(packs[i], schema) && CustomPackCheck(packs[i], cycles) == Pass),
        w1.(validation := w1.validation + multiset(vs)[Fail]))
  {
    var (_, w1) := Load(env, cfg.fix, w, PackSchemaPath(cfg));
    var vs := PackVerdicts(env.conforms, packs, schema, cycles);
    forall i | 0 <= i < |packs|
      ensures vs[i] == Pass <==> env.conforms(packs[i], schema) && CustomPackCheck(packs[i], cycles) == Pass
    {
    }
    TallyWithoutCrash(w1, vs);
  }

  /**
    When the cycle stage failed (`cycles_data` is `None`), a pack that keeps
    the schema makes `custom_pack_check` raise TypeError, and the run ends.
   */
  lemma PacksWithoutCyclesRaise(env: Env, cfg: Config, w: World, packs: seq<Json>, schema: Json, i: nat)
    requires Load(env, cfg.fix, w, PackSchemaPath(cfg)).0 == Next(schema)
    requires Truthy(schema) && env.wellFormedSchema(schema)
    requires i < |packs| && packs[i].JObj? && env.conforms(packs[i], schema)
    ensures ValidatePacks(env, cfg, w, JArr(packs), None).0 == Halt(Uncaught)
  {
    var vs := PackVerdicts(env.conforms, packs, schema, None);
    assert vs[i] == Crash;
  }

  // ---------------------------------------------------------------------
  // load_cycles and load_pack_index

  /**
    `load_cycles` hands on the cycle list exactly when it validated, and
    `None` exactly when it did not.
   */
  lemma LoadCyclesNoneIffRejected(env: Env, cfg: Config, w: World)
    ensures var (s, w1) := Load(env, cfg.fix, w, CyclesPath(cfg));
      var (c, w2) := LoadCycles(env, cfg, w);
      s.Next? ==>
        && (c == Next(None) <==> ValidateCycles(env, cfg, w1, s.value).0 == Next(false))
        && (c.Next? && c.value.Some? ==> s.value == JArr(c.value.value))
  {
  }

  /**
    `load_pack_index` gives `None` exactly when the pack index did not
    validate; a pack list it hands on validated, and every pack in it has a
    code whose card file is in the store.
   */
  lemma LoadPackIndexResult(env: Env, cfg: Config, w: World, cycles: Option<seq<Json>>)
    ensures var (s, w1) := Load(env, cfg.fix, w, PacksPath(cfg));
      var (p, w2) := LoadPackIndex(env, cfg, w, cycles);
      s.Next? ==>
        && (p == Next(None) <==> ValidatePacks(env, cfg, w1, s.value, cycles).0 == Next(false))
        && (p.Next? && p.value.Some? ==>
              && ValidatePacks(env, cfg, w1, s.value, cycles).0 == Next(true)
              && s.value == JArr(p.value.value)
              && forall i :: 0 <= i < |p.value.value| ==>
                   && Lookup(p.value.value[i], "code").Some?
                   && PackFilePath(env, cfg, Lookup(p.value.value[i], "code").value) in w2.files)
  {
    var (s, w1) := Load(env, cfg.fix, w, PacksPath(cfg));
    if s.Next? {
      var (ok, w2) := ValidatePacks(env, cfg, w1, s.value, cycles);
      if ok == Next(true) {
        var _ := CheckPackFiles(env, cfg, w2.files, s.value.items);
      }
    }
  }

  // ---------------------------------------------------------------------
  // validate_cards

  /** An absent, empty or ill-formed card schema validates no card. */
  lemma CardsSchemaUnusable(env: Env, cfg: Config, w: World, packs: seq<Json>, schema: Json)
    requires Load(env, cfg.fix, w, CardSchemaPath(cfg)).0 == Next(schema)
    requires !Truthy(schema) || !env.wellFormedSchema(schema)
    ensures var w1 := Load(env, cfg.fix, w, CardSchemaPath(cfg)).1;
      ValidateCards(env, cfg, w, packs) == (Next(()), w1.(validation := w1.validation + if Truthy(schema) then 1 else 0))
  {
  }

  /**
    A pack whose card file is falsy (it did not parse, or it is empty) is
    skipped after loading, and the loop goes on with the next pack.
   */
  lemma SkippedPackContinues(env: Env, cfg: Config, w: World, schema: Json, packs: seq<Json>, k: nat, w1: World)
    requires k < |packs|
    requires CardsOfPacks(env, cfg, w, schema, packs[..k]) == (Next(()), w1)
    requires Lookup(packs[k], "name").Some? && Lookup(packs[k], "code").Some?
    requires var s := Load(env, cfg.fix, w1, PackFilePath(env, cfg, Lookup(packs[k], "code").value)).0;
      s.Next? && !Truthy(s.value)
    ensures CardsOfPacks(env, cfg, w, schema, packs[..k + 1]) ==
      (Next(()), Load(env, cfg.fix, w1, PackFilePath(env, cfg, Lookup(packs[k], "code").value)).1)
  {
    assert packs[..k + 1][..k] == packs[..k];
  }

  /**
    The cards of one pack file that raise nowhere: each card that breaks the
    schema or names another pack adds exactly one defect.
   */
  lemma PackCardsCounted(env: Env, cfg: Config, w: World, schema: Json, pack: Json, cards: seq<Json>)
    requires Lookup(pack, "name").Some? && Lookup(pack, "code").Some?
    requires Load(env, cfg.fix, w, PackFilePath(env, cfg, Lookup(pack, "code").value)).0 == Next(JArr(cards))
    requires Crash !in CardVerdicts(env.conforms, cards, schema, Lookup(pack, "code").value)
    ensures var w1 := Load(env, cfg.fix, w, PackFilePath(env, cfg, Lookup(pack, "code").value)).1;
      var vs := CardVerdicts(env.conforms, cards, schema, Lookup(pack, "code").value);
      CardsOfPack(env, cfg, w, schema, pack) == (Next(()), w1.(validation := w1.validation + multiset(vs)[Fail]))
  {
    FailuresCountsRejected(CardVerdicts(env.conforms, cards, schema, Lookup(pack, "code").value));
  }

  // ---------------------------------------------------------------------
  // no stage lowers a counter or adds or removes a file: a rewrite replaces one

  lemma LoadGrows(env: Env, fix: bool, w: World, path: string)
    ensures Grows(w, Load(env, fix, w, path).1)
  {
  }

  lemma ValidateCyclesGrows(env: Env, cfg: Config, w: World, data: Json)
    ensures Grows(w, ValidateCycles(env, cfg, w, data).1)
  {
    LoadGrows(env, cfg.fix, w, CycleSchemaPath(cfg));
  }

  lemma ValidatePacksGrows(env: Env, cfg: Config, w: World, data: Json, cycles: Option<seq<Json>>)
    ensures Grows(w, ValidatePacks(env, cfg, w, data, cycles).1)
  {
    LoadGrows(env, cfg.fix, w, PackSchemaPath(cfg));
  }

  lemma LoadCyclesGrows(env: Env, cfg: Config, w: World)
    ensures Grows(w, LoadCycles(env, cfg, w).1)
  {
    var (s, w1) := Load(env, cfg.fix, w, CyclesPath(cfg));
    LoadGrows(env, cfg.fix, w, CyclesPath(cfg));
    if s.Next? {
      ValidateCyclesGrows(env, cfg, w1, s.value);
    }
  }

  lemma LoadPackIndexGrows(env: Env, cfg: Config, w: World, cycles: Option<seq<Json>>)
    ensures Grows(w, LoadPackIndex(env, cfg, w, cycles).1)
  {
    var (s, w1) := Load(env, cfg.fix, w, PacksPath(cfg));
    LoadGrows(env, cfg.fix, w, PacksPath(cfg));
    if s.Next? {
      ValidatePacksGrows(env, cfg, w1, s.value, cycles);
    }
  }

  lemma CardsOfPackGrows(env: Env, cfg: Config, w: World, schema: Json, pack: Json)
    ensures Grows(w, CardsOfPack(env, cfg, w, schema, pack).1)
  {
    match (Lookup(pack, "name"), Lookup(pack, "code"))
    case (Some(_), Some(code)) =>
      LoadGrows(env, cfg.fix, w, PackFilePath(env, cfg, code));
    case _ =>
  }

  lemma {:induction false} CardsOfPacksGrows(env: Env, cfg: Config, w: World, schema: Json, packs: seq<Json>)
    ensures Grows(w, CardsOfPacks(env, cfg, w, schema, packs).1)
    decreases |packs|
  {
    if packs != [] {
      var front := packs[..|packs| - 1];
      CardsOfPacksGrows(env, cfg, w, schema, front);
      var w1 := CardsOfPacks(env, cfg, w, schema, front).1;
      CardsOfPackGrows(env, cfg, w1, schema, packs[|packs| - 1]);
    }
  }

  lemma ValidateCardsGrows(env: Env, cfg: Config, w: World, packs: seq<Json>)
    ensures Grows(w, ValidateCards(env, cfg, w, packs).1)
  {
    var (s, w1) := Load(env, cfg.fix, w, CardSchemaPath(cfg));
    LoadGrows(env, cfg.fix, w, CardSchemaPath(cfg));
    if s.Next? && Truthy(s.value) {
      var (ok, w2) := CheckSchema(env, w1, s.value);
      if ok {
        CardsOfPacksGrows(env, cfg, w2, s.value, packs);
      }
    }
  }

  // ---------------------------------------------------------------------
  // main

  /**
    The counters start at 0 and only go up: a run ends with each counter at
    least where the first stage left it, and the store holds the same paths.
   */
  lemma RunCountersNeverDecrease(env: Env, cfg: Config, files: map<string, string>)
    ensures Grows(LoadCycles(env, cfg, World(0, 0, files)).1, Run(env, cfg, files).1)
    ensures Run(env, cfg, files).1.files.Keys == files.Keys
  {
    var (c, w1) := LoadCycles(env, cfg, World(0, 0, files));
    LoadCyclesGrows(env, cfg, World(0, 0, files));
    if c.Next? {
      var (p, w2) := LoadPackIndex(env, cfg, w1, c.value);
      LoadPackIndexGrows(env, cfg, w1, c.value);
      if p.Next? && p.value.Some? && p.value.value != [] {
        ValidateCardsGrows(env, cfg, w2, p.value.value);
      }
    }
  }

  /**
    The card stage runs only when the pack index came back as a non-empty
    list; otherwise the run ends right after the pack stage.
   */
  lemma RunCardsOnlyAfterPacks(env: Env, cfg: Config, files: map<string, string>)
    ensures var (c, w1) := LoadCycles(env, cfg, World(0, 0, files));
      c.Next? ==>
        var (p, w2) := LoadPackIndex(env, cfg, w1, c.value);
        && (p.Next? && (p.value.None? || p.value.value == []) ==>
              Run(env, cfg, files) == (Completed(if w2.formatting == 0 && w2.validation == 0 then 0 else 1), w2))
        && (p.Next? && p.value.Some? && p.value.value != [] ==>
              Run(env, cfg, files).1 == ValidateCards(env, cfg, w2, p.value.value).1)
  {
    var (c, w1) := LoadCycles(env, cfg, World(0, 0, files));
    if c.Next? {
      var (p, w2) := LoadPackIndex(env, cfg, w1, c.value);
      if p.Next? && p.value.Some? && p.value.value != [] {
        var (k, w3) := ValidateCards(env, cfg, w2, p.value.value);
        assert Run(env, cfg, files).1 == w3;
      }
    }
  }

  /** The process exits with status 0 exactly when it ran to the end with both counters at 0. */
  lemma RunExitsZeroIffClean(env: Env, cfg: Config, files: map<string, string>)
    ensures var (outcome, w) := Run(env, cfg, files);
      ExitStatus(outcome) == 0 <==> outcome.Completed? && w.formatting == 0 && w.validation == 0
  {
  }

  // ---------------------------------------------------------------------
  // A clean repository

  /** The file at `path` parses to `doc` and is already in canonical form. */
  predicate CleanFile(env: Env, files: map<string, string>, path: string, doc: Json)
  {
    path in files && env.parse(files[path]) == Some(doc) && FormatJson(env.dumps, doc) == files[path]
  }

  /**
    A declared pack whose card file is a canonical list of cards that all keep
    the card schema and name this pack.
   */
  predicate CleanPack(env: Env, cfg: Config, files: map<string, string>, schema: Json, pack: Json)
  {
    && Lookup(pack, "name").Some?
    && Lookup(pack, "code").Some?
    && var path := PackFilePath(env, cfg, Lookup(pack, "code").value);
    && path in files
    && env.parse(files[path]).Some?
    && var doc := env.parse(files[path]).value;
    && CleanFile(env, files, path, doc)
    && doc.JArr?
    && forall i :: 0 <= i < |doc.items| ==> CardVerdict(env.conforms, doc.items[i], schema, Lookup(pack, "code").value) == Pass
  }

  /** A canonical file loads as its document and counts nothing. */
  lemma CleanLoad(env: Env, fix: bool, w: World, path: string, doc: Json)
    requires CleanFile(env, w.files, path, doc)
    ensures Load(env, fix, w, path) == (Next(doc), w)
  {
  }

  /** A validation loop in which every item passes counts nothing and answers true. */
  lemma AllPassTally(w: World, vs: seq<Verdict>)
    requires forall i :: 0 <= i < |vs| ==> vs[i] == Pass
    ensures Tally(w, vs) == (Next(true), w)
  {
    FailuresWithoutCrash(vs);
  }

  /** One clean pack file changes neither counter nor file. */
  lemma CleanPackAddsNothing(env: Env, cfg: Config, w: World, schema: Json, pack: Json)
    requires CleanPack(env, cfg, w.files, schema, pack)
    ensures CardsOfPack(env, cfg, w, schema, pack) == (Next(()), w)
  {
    var code := Lookup(pack, "code").value;
    var path := PackFilePath(env, cfg, code);
    var doc := env.parse(w.files[path]).value;
    CleanLoad(env, cfg.fix, w, path, doc);
    var vs := CardVerdicts(env.conforms, doc.items, schema, code);
    assert forall i :: 0 <= i < |vs| ==> vs[i] == CardVerdict(env.conforms, doc.items[i], schema, code);
    AllPassTally(w, vs);
  }

  /** Clean pack files change neither counter nor file, and the card loop runs to the end. */
  lemma {:induction false} CleanPacksAddNothing(env: Env, cfg: Config, w: World, schema: Json, packs: seq<Json>)
    requires forall k :: 0 <= k < |packs| ==> CleanPack(env, cfg, w.files, schema, packs[k])
    ensures CardsOfPacks(env, cfg, w, schema, packs) == (Next(()), w)
    decreases |packs|
  {
    if packs != [] {
      var front := packs[..|packs| - 1];
      assert forall k :: 0 <= k < |front| ==> front[k] == packs[k];
      CleanPacksAddNothing(env, cfg, w, schema, front);
      CleanPackAddsNothing(env, cfg, w, schema, packs[|packs| - 1]);
    }
  }

  /** A canonical cycle index whose cycles all keep a usable schema loads unchanged and counts nothing. */
  lemma CleanCycles(env: Env, cfg: Config, w: World, cycles: seq<Json>, cycleSchema: Json)
    requires CleanFile(env, w.files, CyclesPath(cfg), JArr(cycles))
    requires CleanFile(env, w.files, CycleSchemaPath(cfg), cycleSchema)
    requires Truthy(cycleSchema) && env.wellFormedSchema(cycleSchema)
    requires forall i :: 0 <= i < |cycles| ==> CycleVerdict(env.conforms, cycles[i], cycleSchema) == Pass
    ensures LoadCycles(env, cfg, w) == (Next(Some(cycles)), w)
  {
    CleanLoad(env, cfg.fix, w, CyclesPath(cfg), JArr(cycles));
    CleanLoad(env, cfg.fix, w, CycleSchemaPath(cfg), cycleSchema);
    AllPassTally(w, CycleVerdicts(env.conforms, cycles, cycleSchema));
    assert ValidateCycles(env, cfg, w, JArr(cycles)) == (Next(true), w);
  }

  /** Every clean pack has a code whose card file is in the store. */
  lemma CleanPacksHaveFiles(env: Env, cfg: Config, files: map<string, string>, schema: Json, packs: seq<Json>)
    requires forall k :: 0 <= k < |packs| ==> CleanPack(env, cfg, files, schema, packs[k])
    ensures forall k :: 0 <= k < |packs| ==>
      Lookup(packs[k], "code").Some? && PackFilePath(env, cfg, Lookup(packs[k], "code").value) in files
  {
  }

  /** A canonical pack index whose packs all pass and have their card files is handed on unchanged, with nothing counted. */
  lemma CleanPackIndex(env: Env, cfg: Config, w: World, cycles: seq<Json>, packs: seq<Json>, packSchema: Json)
    requires CleanFile(env, w.files, PacksPath(cfg), JArr(packs))
    requires CleanFile(env, w.files, PackSchemaPath(cfg), packSchema)
    requires Truthy(packSchema) && env.wellFormedSchema(packSchema)
    requires forall i :: 0 <= i < |packs| ==> PackVerdict(env.conforms, packs[i], packSchema, Some(cycles)) == Pass
    requires forall k :: 0 <= k < |packs| ==>
      Lookup(packs[k], "code").Some? && PackFilePath(env, cfg, Lookup(packs[k], "code").value) in w.files
    ensures LoadPackIndex(env, cfg, w, Some(cycles)) == (Next(Some(packs)), w)
  {
    CleanLoad(env, cfg.fix, w, PacksPath(cfg), JArr(packs));
    CleanLoad(env, cfg.fix, w, PackSchemaPath(cfg), packSchema);
    AllPassTally(w, PackVerdicts(env.conforms, packs, packSchema, Some(cycles)));
    assert ValidatePacks(env, cfg, w, JArr(packs), Some(cycles)) == (Next(true), w);
    assert CheckPackFiles(env, cfg, w.files, packs).None?;
  }

  /**
    A repository in which every file the run reads is canonical, every
    schema is well-formed, every cycle and pack keeps its schema, every pack
    names a listed cycle and every card keeps the card schema and names its
    pack: the run ends with both counters at 0 and exit status 0, and no
    file is rewritten.
   */
  lemma CleanRepositoryExitsZero(
    env: Env, cfg: Config, files: map<string, string>,
    cycles: seq<Json>, packs: seq<Json>, cycleSchema: Json, packSchema: Json, cardSchema: Json)
    requires CleanFile(env, files, CyclesPath(cfg), JArr(cycles))
    requires CleanFile(env, files, PacksPath(cfg), JArr(packs))
    requires CleanFile(env, files, CycleSchemaPath(cfg), cycleSchema)
    requires CleanFile(env, files, PackSchemaPath(cfg), packSchema)
    requires CleanFile(env, files, CardSchemaPath(cfg), cardSchema)
    requires Truthy(cycleSchema) && env.wellFormedSchema(cycleSchema)
    requires Truthy(packSchema) && env.wellFormedSchema(packSchema)
    requires Truthy(cardSchema) && env.wellFormedSchema(cardSchema)
    requires forall i :: 0 <= i < |cycles| ==> CycleVerdict(env.conforms, cycles[i], cycleSchema) == Pass
    requires forall i :: 0 <= i < |packs| ==> PackVerdict(env.conforms, packs[i], packSchema, Some(cycles)) == Pass
    requires forall k :: 0 <= k < |packs| ==> CleanPack(env, cfg, files, cardSchema, packs[k])
    ensures Run(env, cfg, files) == (Completed(0), World(0, 0, files))
    ensures ExitStatus(Run(env, cfg, files).0) == 0
  {
    var w := World(0, 0, files);
    CleanCycles(env, cfg, w, cycles, cycleSchema);
    CleanPacksHaveFiles(env, cfg, files, cardSchema, packs);
    CleanPackIndex(env, cfg, w, cycles, packs, packSchema);
    CleanLoad(env, cfg.fix, w, CardSchemaPath(cfg), cardSchema);
    CleanPacksAddNothing(env, cfg, w, cardSchema, packs);
    assert ValidateCards(env, cfg, w, packs) == (Next(()), w);
  }

  /** A pack whose card file parses to a non-empty list of passing cards adds only what loading that file adds. */
  lemma PassingPackAddsOnlyLoad(env: Env, cfg: Config, w: World, schema: Json, pack: Json, cards: seq<Json>)
    requires Lookup(pack, "name").Some? && Lookup(pack, "code").Some?
    requires Load(env, cfg.fix, w, PackFilePath(env, cfg, Lookup(pack, "code").value)).0 == Next(JArr(cards))
    requires cards != []
    requires forall i :: 0 <= i < |cards| ==> CardVerdict(env.conforms, cards[i], schema, Lookup(pack, "code").value) == Pass
    ensures CardsOfPack(env, cfg, w, schema, pack) == (Next(()), Load(env, cfg.fix, w, PackFilePath(env, cfg, Lookup(pack, "code").value)).1)
  {
    var code := Lookup(pack, "code").value;
    var w1 := Load(env, cfg.fix, w, PackFilePath(env, cfg, code)).1;
    var vs := CardVerdicts(env.conforms, cards, schema, code);
    assert forall i :: 0 <= i < |vs| ==> vs[i] == CardVerdict(env.conforms, cards[i], schema, code);
    AllPassTally(w1, vs);
  }

  /**
    A repository that is clean except that the card file of its one pack is
    not in canonical form: the run counts exactly one formatting defect and
    no validation defect, exits with status 1, and in fix mode rewrites that
    card file, and only it, to its canonical text when the write succeeds.
   */
  lemma OneMisformattedCardFile(
    env: Env, cfg: Config, files: map<string, string>,
    cycles: seq<Json>, pack: Json, cards: seq<Json>, cycleSchema: Json, packSchema: Json, cardSchema: Json)
    requires CleanFile(env, files, CyclesPath(cfg), JArr(cycles))
    requires CleanFile(env, files, PacksPath(cfg), JArr([pack]))
    requires CleanFile(env, files, CycleSchemaPath(cfg), cycleSchema)
    requires CleanFile(env, files, PackSchemaPath(cfg), packSchema)
    requires CleanFile(env, files, CardSchemaPath(cfg), cardSchema)
    requires Truthy(cycleSchema) && env.wellFormedSchema(cycleSchema)
    requires Truthy(packSchema) && env.wellFormedSchema(packSchema)
    requires Truthy(cardSchema) && env.wellFormedSchema(cardSchema)
    requires forall i :: 0 <= i < |cycles| ==> CycleVerdict(env.conforms, cycles[i], cycleSchema) == Pass
    requires PackVerdict(env.conforms, pack, packSchema, Some(cycles)) == Pass
    requires Lookup(pack, "name").Some? && Lookup(pack, "code").Some?
    requires var path := PackFilePath(env, cfg, Lookup(pack, "code").value);
      && path in files
      && env.parse(files[path]) == Some(JArr(cards))
      && FormatJson(env.dumps, JArr(cards)) != files[path]
    requires cards != []
    requires forall i :: 0 <= i < |cards| ==> CardVerdict(env.conforms, cards[i], cardSchema, Lookup(pack, "code").value) == Pass
    ensures var path := PackFilePath(env, cfg, Lookup(pack, "code").value);
      Run(env, cfg, files) == (Completed(1), World(1, 0,
        if cfg.fix && env.canWrite(path) then files[path := FormatJson(env.dumps, JArr(cards))] else files))
  {
    var w := World(0, 0, files);
    var code := Lookup(pack, "code").value;
    var path := PackFilePath(env, cfg, code);
    CleanCycles(env, cfg, w, cycles, cycleSchema);
    CleanPackIndex(env, cfg, w, cycles, [pack], packSchema);
    CleanLoad(env, cfg.fix, w, CardSchemaPath(cfg), cardSchema);
    LoadParsed(env, cfg.fix, w, path, JArr(cards));
    var w1 := Load(env, cfg.fix, w, path).1;
    PassingPackAddsOnlyLoad(env, cfg, w, cardSchema, pack, cards);
    assert [pack][..0] == [];
    assert CardsOfPacks(env, cfg, w, cardSchema, [pack]) == (Next(()), w1);
    assert ValidateCards(env, cfg, w, [pack]) == (Next(()), w1);
  }
}
