/**
  The pure parts of the validator: canonical formatting, the two cross-reference
  rules that the schemas cannot express, and the verdict each list item gets
  inside the `try ... except jsonschema.ValidationError` of its loop.
 */
module Rules {
  import opened JsonValues

  /**
    What happens to one item of a validation loop: it passes, it is rejected
    with a `ValidationError` (caught and counted), or an uncaught exception
    ends the run (KeyError, TypeError or AttributeError on a malformed item).
   */
  datatype Verdict = Pass | Fail | Crash

  /**
    `format_json`: the library serialisation (sorted keys, 4-space indent,
    `','` and `': '` separators, non-ASCII kept) followed by one newline.
    So the canonical text is never empty, and the fix-mode length guard of
    the loader never blocks a rewrite.
   */
  function FormatJson(dumps: Json -> string, doc: Json): (text: string)
    ensures |text| > 0 && text[|text| - 1] == '\n'
  {
    dumps(doc) + "\n"
  }

  /**
    `[c["code"] for c in cycles_data]`: the cycle codes in list order, or
    `None` when some cycle has no `code` member (the comprehension raises).
   */
  function CycleCodes(cycles: seq<Json>): (codes: Option<seq<Json>>)
    ensures codes.Some? <==> forall i :: 0 <= i < |cycles| ==> Lookup(cycles[i], "code").Some?
    ensures codes.Some? ==> |codes.value| == |cycles|
    ensures codes.Some? ==> forall i :: 0 <= i < |cycles| ==> codes.value[i] == Lookup(cycles[i], "code").value
  {
    if cycles == [] then Some([])
    else
      match (Lookup(cycles[0], "code"), CycleCodes(cycles[1..]))
      case (Some(c), Some(rest)) => Some([c] + rest)
      case _ => None
  }

  /**
    `custom_card_check`: a card is accepted exactly when its `pack_code`
    equals the code of the pack file it was read from, and rejected exactly
    when it differs (the rejection message reads `card["code"]`, so a card
    without a code raises instead).
   */
  function CustomCardCheck(card: Json, packCode: Json): (v: Verdict)
    ensures v == Pass <==> Lookup(card, "pack_code") == Some(packCode)
    ensures v == Fail <==>
      && Lookup(card, "pack_code").Some?
      && Lookup(card, "pack_code").value != packCode
      && Lookup(card, "code").Some?
  {
    match Lookup(card, "pack_code")
    case None => Crash
    case Some(pc) =>
      if pc == packCode then Pass
      else if Lookup(card, "code").Some? then Fail
      else Crash
  }

  /**
    `custom_pack_check`: a pack is accepted exactly when its `cycle_code` is
    the `code` of some known cycle, and rejected exactly when it is none of
    them. With no cycle list (`None`, because the cycle stage failed) the
    membership test raises TypeError.
   */
  function CustomPackCheck(pack: Json, cycles: Option<seq<Json>>): (v: Verdict)
    ensures v == Pass <==>
      && Lookup(pack, "cycle_code").Some?
      && cycles.Some?
      && (forall i :: 0 <= i < |cycles.value| ==> Lookup(cycles.value[i], "code").Some?)
      && (exists i :: 0 <= i < |cycles.value| && Lookup(cycles.value[i], "code") == Lookup(pack, "cycle_code"))
    ensures v == Fail <==>
      && Lookup(pack, "cycle_code").Some?
      && cycles.Some?
      && (forall i :: 0 <= i < |cycles.value| ==> Lookup(cycles.value[i], "code").Some?)
      && (forall i :: 0 <= i < |cycles.value| ==> Lookup(cycles.value[i], "code") != Lookup(pack, "cycle_code"))
      && Lookup(pack, "code").Some?
  {
    match Lookup(pack, "cycle_code")
    case None => Crash
    case Some(cc) =>
      if cycles.None? then Crash
      else
        match CycleCodes(cycles.value)
        case None => Crash
        case Some(codes) =>
          if cc in codes then Pass
          else if Lookup(pack, "code").Some? then Fail
          else Crash
  }

  /** One pass of the loop in `validate_cycles`: `c.get("name")` raises on a non-object. */
  function CycleVerdict(conforms: (Json, Json) -> bool, cycle: Json, schema: Json): (v: Verdict)
    ensures v == Crash <==> !cycle.JObj?
    ensures v == Pass <==> cycle.JObj? && conforms(cycle, schema)
  {
    if !cycle.JObj? then Crash
    else if conforms(cycle, schema) then Pass
    else Fail
  }

  /**
    One pass of the loop in `validate_packs`: `p.get("name")` raises on a
    non-object, then the schema, then the cycle cross-check.
   */
  function PackVerdict(conforms: (Json, Json) -> bool, pack: Json, schema: Json, cycles: Option<seq<Json>>): Verdict
  {
    if !pack.JObj? then Crash
    else if !conforms(pack, schema) then Fail
    else CustomPackCheck(pack, cycles)
  }

  /**
    A pack is accepted exactly when it is an object that keeps the schema and
    passes the cycle cross-check, and rejected exactly when it is an object
    that breaks the schema or fails that check; a schema break is counted
    even when the cross-check would raise.
   */
  lemma PackVerdictIff(conforms: (Json, Json) -> bool, pack: Json, schema: Json, cycles: Option<seq<Json>>)
    ensures PackVerdict(conforms, pack, schema, cycles) == Pass <==>
      pack.JObj? && conforms(pack, schema) && CustomPackCheck(pack, cycles) == Pass
    ensures PackVerdict(conforms, pack, schema, cycles) == Fail <==>
      pack.JObj? && (!conforms(pack, schema) || CustomPackCheck(pack, cycles) == Fail)
  {
  }

  /** `validate_card`: `card["name"]` must exist, then the schema, then the pack-code cross-check. */
  function CardVerdict(conforms: (Json, Json) -> bool, card: Json, schema: Json, packCode: Json): (v: Verdict)
    ensures v == Pass <==>
      && Lookup(card, "name").Some?
      && conforms(card, schema)
      && Lookup(card, "pack_code") == Some(packCode)
    ensures v == Fail <==>
      && Lookup(card, "name").Some?
      && (|| !conforms(card, schema)
          || (&& Lookup(card, "pack_code").Some?
              && Lookup(card, "pack_code").value != packCode
              && Lookup(card, "code").Some?))
  {
    if Lookup(card, "name").None? then Crash
    else if !conforms(card, schema) then Fail
    else CustomCardCheck(card, packCode)
  }

  /** The verdicts of a loop over `items`, in list order. */
  function Verdicts(verdict: Json -> Verdict, items: seq<Json>): seq<Verdict>
  {
    seq(|items|, i requires 0 <= i < |items| => verdict(items[i]))
  }

  function CycleVerdicts(conforms: (Json, Json) -> bool, cycles: seq<Json>, schema: Json): seq<Verdict>
  {
    seq(|cycles|, i requires 0 <= i < |cycles| => CycleVerdict(conforms, cycles[i], schema))
  }

  function PackVerdicts(conforms: (Json, Json) -> bool, packs: seq<Json>, schema: Json, cycles: Option<seq<Json>>): seq<Verdict>
  {
    seq(|packs|, i requires 0 <= i < |packs| => PackVerdict(conforms, packs[i], schema, cycles))
  }

  function CardVerdicts(conforms: (Json, Json) -> bool, cards: seq<Json>, schema: Json, packCode: Json): seq<Verdict>
  {
    seq(|cards|, i requires 0 <= i < |cards| => CardVerdict(conforms, cards[i], schema, packCode))
  }

  /**
    What a validation loop adds to the validation counter: one for each
    rejected item it reaches, the loop ending at the first item that raises.
   */
  function Failures(vs: seq<Verdict>): (n: nat)
    ensures n <= |vs|
  {
    if vs == [] || vs[0] == Crash then 0
    else (if vs[0] == Fail then 1 else 0) + Failures(vs[1..])
  }

  /** Failures composes over consecutive stretches of a loop; nothing counts after a raise. */
  lemma {:induction false} FailuresSplit(a: seq<Verdict>, b: seq<Verdict>)
    ensures Failures(a + b) == Failures(a) + if Crash in a then 0 else Failures(b)
  {
    if a != [] {
      assert (a + b)[1..] == a[1..] + b;
      if a[0] != Crash {
        FailuresSplit(a[1..], b);
        assert Crash in a <==> Crash in a[1..];
      }
    } else {
      assert a + b == b;
    }
  }

  /**
    A loop that never raises rejects no item exactly when every item
    passes.
   */
  lemma {:induction false} FailuresWithoutCrash(vs: seq<Verdict>)
    requires Crash !in vs
    ensures Failures(vs) == 0 <==> forall i :: 0 <= i < |vs| ==> vs[i] == Pass
  {
    if vs != [] {
      assert Crash !in vs[1..];
      FailuresWithoutCrash(vs[1..]);
      assert forall i :: 1 <= i < |vs| ==> vs[i] == vs[1..][i - 1];
    }
  }

  /**
    A loop that never raises adds exactly one defect per rejected item,
    wherever the rejected items stand in the list.
   */
  lemma {:induction false} FailuresCountsRejected(vs: seq<Verdict>)
    requires Crash !in vs
    ensures Failures(vs) == multiset(vs)[Fail]
  {
    if vs != [] {
      assert vs == [vs[0]] + vs[1..];
      assert Crash !in vs[1..];
      FailuresCountsRejected(vs[1..]);
    }
  }

  /**
    A rejected item does not stop the loop: it adds one defect and the items
    after it are still counted, up to the first of them that raises.
   */
  lemma RejectionDoesNotStop(vs: seq<Verdict>, i: nat)
    requires i < |vs| && vs[i] == Fail && Crash !in vs[..i]
    ensures Failures(vs) == Failures(vs[..i]) + 1 + Failures(vs[i + 1..])
  {
    var rest := vs[i..];
    assert vs == vs[..i] + rest;
    FailuresSplit(vs[..i], rest);
    assert rest[0] == Fail && rest[1..] == vs[i + 1..];
  }

  /** Counting one more item of a loop that has not raised so far. */
  lemma FailuresExtend(vs: seq<Verdict>, i: nat)
    requires i < |vs| && Crash !in vs[..i]
    ensures Failures(vs[..i + 1]) == Failures(vs[..i]) + if vs[i] == Fail then 1 else 0
    ensures vs[i] != Crash ==> Crash !in vs[..i + 1]
  {
    assert vs[..i + 1] == vs[..i] + [vs[i]];
    FailuresSplit(vs[..i], [vs[i]]);
  }

  /** A loop stops at its first raising item, having counted exactly the items before it. */
  lemma FailuresStopAt(vs: seq<Verdict>, i: nat)
    requires i < |vs| && vs[i] == Crash && Crash !in vs[..i]
    ensures Failures(vs) == Failures(vs[..i])
    ensures Crash in vs
  {
    assert vs == vs[..i] + vs[i..];
    FailuresSplit(vs[..i], vs[i..]);
  }

  /**
    A cycle list holding one cycle that breaks the schema and one that keeps
    it yields exactly one validation defect, and the good cycle is accepted.
   */
  lemma OneBadCycleOneDefect(conforms: (Json, Json) -> bool, bad: Json, good: Json, schema: Json)
    requires bad.JObj? && good.JObj?
    requires !conforms(bad, schema) && conforms(good, schema)
    ensures Failures(CycleVerdicts(conforms, [bad, good], schema)) == 1
    ensures CycleVerdicts(conforms, [bad, good], schema)[1] == Pass
  {
    var vs := CycleVerdicts(conforms, [bad, good], schema);
    assert vs == [Fail, Pass];
    assert [Fail, Pass][1..] == [Pass] && [Pass][1..] == [];
    assert Failures([Pass]) == 0;
  }
}
