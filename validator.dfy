/**
  validate.py as it runs: one object holds the two global defect counters
  and the file store, and each stage updates them in place. Every method is
  proved to leave the counters and files, and to return, exactly what the
  matching function of module Pipeline gives for the state it started in.
 */
module Validate {
  import opened JsonValues
  import opened Rules
  import opened Pipeline
  import opened PipelineFacts

  class Validator {
    var formattingErrors: nat
    var validationErrors: nat
    /** The files of the repository, path to text; a fix-mode rewrite replaces one entry. */
    var files: map<string, string>
    const env: Env
    const cfg: Config

    function State(): World
      reads this
    {
      World(formattingErrors, validationErrors, files)
    }

    /** The module-level state: both counters start at 0. */
    constructor (env: Env, cfg: Config, files: map<string, string>)
      ensures this.env == env && this.cfg == cfg
      ensures State() == World(0, 0, files)
    {
      this.env := env;
      this.cfg := cfg;
      this.files := files;
      formattingErrors := 0;
      validationErrors := 0;
    }

    /** `load_json_file` */
    method LoadJsonFile(path: string) returns (r: Step<Json>)
      modifies this
      ensures (r, State()) == Load(env, cfg.fix, old(State()), path)
    {
      if path !in files {
        return Halt(OpenFailed(path));
      }
      var raw := files[path];
      var parsed := env.parse(raw);
      if parsed.None? {
        validationErrors := validationErrors + 1;
        return Next(JNull);
      }
      var doc := parsed.value;
      var formatted := FormatJson(env.dumps, doc);
      if formatted != raw {
        formattingErrors := formattingErrors + 1;
        if cfg.fix && |formatted| > 0 && env.canWrite(path) {
          files := files[path := formatted];
        }
      }
      return Next(doc);
    }

    /** `check_json_schema` */
    method CheckJsonSchema(schema: Json) returns (ok: bool)
      modifies this
      ensures (ok, State()) == CheckSchema(env, old(State()), schema)
    {
      if env.wellFormedSchema(schema) {
        return true;
      }
      validationErrors := validationErrors + 1;
      return false;
    }

    /** `validate_cycles` */
    method ValidateCycles(data: Json) returns (r: Step<bool>)
      modifies this
      ensures (r, State()) == Pipeline.ValidateCycles(env, cfg, old(State()), data)
    {
      var loaded := LoadJsonFile(CycleSchemaPath(cfg));
      if loaded.Halt? {
        return Halt(loaded.cause);
      }
      var schema := loaded.value;
      if !data.JArr? {
        return Next(false);
      }
      if !Truthy(schema) {
        return Next(false);
      }
      var wellFormed := CheckJsonSchema(schema);
      if !wellFormed {
        return Next(false);
      }
      r := CheckCycles(data.items, schema);
    }

    /** The loop of `validate_cycles`, once the schema is usable: every cycle goes through `CycleVerdict`. */
    method CheckCycles(cycles: seq<Json>, schema: Json) returns (r: Step<bool>)
      modifies this
      ensures (r, State()) == Tally(old(State()), CycleVerdicts(env.conforms, cycles, schema))
    {
      var conforms := env.conforms;
      var verdict := c => CycleVerdict(conforms, c, schema);
      assert Verdicts(verdict, cycles) == CycleVerdicts(env.conforms, cycles, schema);
      r := CheckItems(cycles, verdict);
    }

    /**
      The `retval` loop that `validate_cycles` and `validate_packs` share: each
      item gets its verdict inside the `try`; a rejection adds one validation
      defect and clears `retval`, and a raise leaves the loop and the run.
     */
    method CheckItems(items: seq<Json>, verdict: Json -> Verdict) returns (r: Step<bool>)
      modifies this
      ensures (r, State()) == Tally(old(State()), Verdicts(verdict, items))
    {
      ghost var vs := Verdicts(verdict, items);
      var retval := true;
      var i := 0;
      while i < |items|
        invariant i <= |items|
        invariant Crash !in vs[..i]
        invariant State() == old(State()).(validation := old(validationErrors) + Failures(vs[..i]))
        invariant retval == (Failures(vs[..i]) == 0)
      {
        var v := verdict(items[i]);
        if v == Crash {
          TallyStopped(old(State()), vs, i);
          return Halt(Uncaught);
        }
        FailuresExtend(vs, i);
        if v == Fail {
          validationErrors := validationErrors + 1;
          retval := false;
        }
        i := i + 1;
      }
      TallyFinished(old(State()), vs, i);
      return Next(retval);
    }

    /** `validate_packs` */
    method ValidatePacks(data: Json, cycles: Option<seq<Json>>) returns (r: Step<bool>)
      modifies this
      ensures (r, State()) == Pipeline.ValidatePacks(env, cfg, old(State()), data, cycles)
    {
      var loaded := LoadJsonFile(PackSchemaPath(cfg));
      if loaded.Halt? {
        return Halt(loaded.cause);
      }
      var schema := loaded.value;
      if !data.JArr? {
        return Next(false);
      }
      if !Truthy(schema) {
        return Next(false);
      }
      var wellFormed := CheckJsonSchema(schema);
      if !wellFormed {
        return Next(false);
      }
      r := CheckPacks(data.items, schema, cycles);
    }

    /**
      The loop of `validate_packs`, once the schema is usable: every pack goes
      through `PackVerdict`, where a non-object raises AttributeError at
      `p.get("name")` and a schema-valid pack then meets `custom_pack_check`.
     */
    method CheckPacks(packs: seq<Json>, schema: Json, cycles: Option<seq<Json>>) returns (r: Step<bool>)
      modifies this
      ensures (r, State()) == Tally(old(State()), PackVerdicts(env.conforms, packs, schema, cycles))
    {
      var conforms := env.conforms;
      var verdict := p => PackVerdict(conforms, p, schema, cycles);
      assert Verdicts(verdict, packs) == PackVerdicts(env.conforms, packs, schema, cycles);
      r := CheckItems(packs, verdict);
    }

    /** `load_cycles` */
    method LoadCycles() returns (r: Step<Option<seq<Json>>>)
      modifies this
      ensures (r, State()) == Pipeline.LoadCycles(env, cfg, old(State()))
    {
      var loaded := LoadJsonFile(CyclesPath(cfg));
      if loaded.Halt? {
        return Halt(loaded.cause);
      }
      var ok := ValidateCycles(loaded.value);
      if ok.Halt? {
        return Halt(ok.cause);
      }
      if !ok.value {
        return Next(None);
      }
      return Next(Some(loaded.value.items));
    }

    /** `load_pack_index`, with `check_file_access` on every declared pack file. */
    method LoadPackIndex(cycles: Option<seq<Json>>) returns (r: Step<Option<seq<Json>>>)
      modifies this
      ensures (r, State()) == Pipeline.LoadPackIndex(env, cfg, old(State()), cycles)
    {
      var loaded := LoadJsonFile(PacksPath(cfg));
      if loaded.Halt? {
        return Halt(loaded.cause);
      }
      var ok := ValidatePacks(loaded.value, cycles);
      if ok.Halt? {
        return Halt(ok.cause);
      }
      if !ok.value {
        return Next(None);
      }
      var packs := loaded.value.items;
      var i := 0;
      while i < |packs|
        invariant i <= |packs|
        invariant CheckPackFiles(env, cfg, files, packs) == CheckPackFiles(env, cfg, files, packs[i..])
      {
        var code := Lookup(packs[i], "code");
        if code.None? {
          return Halt(Uncaught);
        }
        var path := PackFilePath(env, cfg, code.value);
        if path !in files {
          return Halt(PackFileMissing(path));
        }
        assert packs[i..][1..] == packs[i + 1..];
        i := i + 1;
      }
      return Next(Some(packs));
    }

    /** `validate_card` */
    method ValidateCard(card: Json, schema: Json, packCode: Json) returns (r: Step<()>)
      modifies this
      ensures var v := CardVerdict(env.conforms, card, schema, packCode);
        && r == (if v == Crash then Halt(Uncaught) else Next(()))
        && State() == old(State()).(validation := old(validationErrors) + if v == Fail then 1 else 0)
    {
      if Lookup(card, "name").None? {
        return Halt(Uncaught);
      }
      if !env.conforms(card, schema) {
        validationErrors := validationErrors + 1;
        return Next(());
      }
      var verdict := CustomCardCheck(card, packCode);
      if verdict == Crash {
        return Halt(Uncaught);
      }
      if verdict == Fail {
        validationErrors := validationErrors + 1;
      }
      return Next(());
    }

    /** `validate_cards` */
    method ValidateCards(packs: seq<Json>) returns (r: Step<()>)
      modifies this
      ensures (r, State()) == Pipeline.ValidateCards(env, cfg, old(State()), packs)
    {
      var loaded := LoadJsonFile(CardSchemaPath(cfg));
      if loaded.Halt? {
        return Halt(loaded.cause);
      }
      var schema := loaded.value;
      if !Truthy(schema) {
        return Next(());
      }
      var wellFormed := CheckJsonSchema(schema);
      if !wellFormed {
        return Next(());
      }
      r := CheckCardsOfPacks(packs, schema);
    }

    /** The outer loop of `validate_cards`, once the card schema is usable. */
    method CheckCardsOfPacks(packs: seq<Json>, schema: Json) returns (r: Step<()>)
      modifies this
      ensures (r, State()) == CardsOfPacks(env, cfg, old(State()), schema, packs)
    {
      ghost var start := State();
      var i := 0;
      r := Next(());
      // a raise inside one pack leaves the loop, and the run
      while i < |packs| && r.Next?
        invariant i <= |packs|
        invariant CardsOfPacks(env, cfg, start, schema, packs[..i]) == (r, State())
      {
        assert packs[..i + 1][..i] == packs[..i];
        r := ValidatePackCards(packs[i], schema);
        i := i + 1;
      }
      if r.Halt? {
        CardsHaltPersists(env, cfg, start, schema, packs, i);
      } else {
        assert packs[..i] == packs;
      }
    }

    /** One pass of the outer loop of `validate_cards`: the card file of one pack is loaded and each of its cards checked. */
    method ValidatePackCards(p: Json, schema: Json) returns (r: Step<()>)
      modifies this
      ensures (r, State()) == CardsOfPack(env, cfg, old(State()), schema, p)
    {
      var name := Lookup(p, "name");
      var code := Lookup(p, "code");
      if name.None? || code.None? {
        return Halt(Uncaught);
      }
      var packData := LoadJsonFile(PackFilePath(env, cfg, code.value));
      if packData.Halt? {
        return Halt(packData.cause);
      }
      if !Truthy(packData.value) {
        return Next(());
      }
      if !packData.value.JArr? {
        // iterating a non-empty object or string yields strings, on which
        // card["name"] raises; numbers and True are not iterable
        return Halt(Uncaught);
      }
      r := CheckCards(packData.value.items, schema, code.value);
    }

    /** The inner loop of `validate_cards`: `validate_card` on every card of one pack file. */
    method CheckCards(cards: seq<Json>, schema: Json, packCode: Json) returns (r: Step<()>)
      modifies this
      ensures var (t, w) := Tally(old(State()), CardVerdicts(env.conforms, cards, schema, packCode));
        && r == (if t.Halt? then Halt(t.cause) else Next(()))
        && State() == w
    {
      ghost var vs := CardVerdicts(env.conforms, cards, schema, packCode);
      var j := 0;
      while j < |cards|
        invariant j <= |cards|
        invariant Crash !in vs[..j]
        invariant State() == old(State()).(validation := old(validationErrors) + Failures(vs[..j]))
      {
        var done := ValidateCard(cards[j], schema, packCode);
        if done.Halt? {
          TallyStopped(old(State()), vs, j);
          return Halt(Uncaught);
        }
        FailuresExtend(vs, j);
        j := j + 1;
      }
      TallyFinished(old(State()), vs, j);
      return Next(());
    }

    /** `main` after `parse_commandline`: reset the counters, run the stages, decide the exit status. */
    method Run() returns (outcome: RunOutcome)
      modifies this
      ensures (outcome, State()) == Pipeline.Run(env, cfg, old(files))
    {
      formattingErrors := 0;
      validationErrors := 0;
      var cycles := LoadCycles();
      if cycles.Halt? {
        return Aborted(cycles.cause);
      }
      var packs := LoadPackIndex(cycles.value);
      if packs.Halt? {
        return Aborted(packs.cause);
      }
      if packs.value.Some? && packs.value.value != [] {
        var done := ValidateCards(packs.value.value);
        if done.Halt? {
          return Aborted(done.cause);
        }
      }
      outcome := Completed(if formattingErrors == 0 && validationErrors == 0 then 0 else 1);
    }
  }
}
