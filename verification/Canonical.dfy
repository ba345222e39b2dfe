/**
 What a canonical node says of the raw node it was made from: which property decides each
 field, and in which order the alternatives are consulted.
 */
module Canonical {
  import opened Wrappers
  import opened Flow
  import opened JsonValues
  import opened Normalize

  // ------------------------------------------------------------ raw values

  /** Neither `undefined` nor `null`. */
  predicate Present(r: Raw) {
    r != None && r != Some(Null)
  }

  predicate Falsy(r: Raw) {
    r == None || r == Some(Null) || r == Some(Bool(false)) || r == Some(Number(0)) || r == Some(Text(""))
  }

  predicate IsText(r: Raw) {
    r.Some? && r.value.Text?
  }

  predicate IsArray(r: Raw) {
    r.Some? && r.value.Array?
  }

  /** `t` is the text of `r`, and absent if `r` is none. */
  predicate TextOf(r: Raw, t: Option<string>) {
    if IsText(r) then t == Some(r.value.s) else t == None
  }

  /** The first of the three that is present, as a string; the last one is a string already. */
  predicate FirstNamed(a: Raw, b: Raw, c: string, s: string) {
    s == if Present(a) then Str(a.value) else if Present(b) then Str(b.value) else c
  }

  lemma TextPrints(s: string)
    ensures Str(Text(s)) == s
  {
  }

  predicate InLowerCase(s: string, t: string) {
    |t| == |s| && forall i | 0 <= i < |s| ::
      t[i] == if 'A' <= s[i] <= 'Z' then 'a' + (s[i] - 'A') else s[i]
  }

  lemma LowersAll(s: string)
    ensures InLowerCase(s, Lower(s))
  {
  }

  /** A decimal numeral, read from the left. */
  function ReadDigits(s: string): int {
    if s == [] then 0 else 10 * ReadDigits(s[..|s| - 1]) + (s[|s| - 1] as int - '0' as int)
  }

  /** Numbers print in decimal digits, without leading zeros. */
  lemma {:induction false} DigitsRead(n: nat)
    ensures var s := Digits(n);
      && ReadDigits(s) == n && s != [] && (s[0] == '0' ==> n == 0 && |s| == 1) && forall c | c in s :: '0' <= c <= '9'
  {
    var s := Digits(n);
    if n >= 10 {
      DigitsRead(n / 10);
      assert s[..|s| - 1] == Digits(n / 10);
    } else {
      assert s[..0] == [];
    }
  }

  /** An array prints its items between commas, `null` as nothing. */
  lemma ArrayPrints(items: seq<Json>, last: Json)
    ensures Str(Array(items + [last])) ==
      (if items == [] then "" else Str(Array(items)) + ",") + if last == Null then "" else Str(last)
  {
    ItemsPrint(items, last);
  }

  lemma {:induction false} ItemsPrint(items: seq<Json>, last: Json)
    ensures StrItems(items + [last]) ==
      (if items == [] then "" else StrItems(items) + ",") + if last == Null then "" else Str(last)
  {
    hide Str;
    var longer := items + [last];
    if items == [] {
      assert longer == [last];
    } else {
      assert longer[0] == items[0] && longer[1..] == items[1..] + [last];
      ItemsPrint(items[1..], last);
      var head := if items[0] == Null then "" else Str(items[0]);
      var tail := if last == Null then "" else Str(last);
      assert StrItems(longer) == head + "," + StrItems(items[1..] + [last]);
      if |items| == 1 {
        assert items[1..] == [];
      } else {
        Regroup(head, StrItems(items[1..]), tail);
      }
    }
  }

  lemma Regroup(a: string, b: string, c: string)
    ensures a + "," + (b + "," + c) == (a + "," + b) + "," + c
  {
  }

  // ------------------------------------------------------------ file types

  ghost predicate Placed(at: seq<nat>, i: nat) {
    exists k | 0 <= k < |at| :: at[k] == i
  }

  /** `at` lists, in ascending order, exactly the places of the strings that are not empty. */
  ghost predicate NonEmptyAt(ts: seq<string>, at: seq<nat>) {
    && (forall i, j | 0 <= i < j < |at| :: at[i] < at[j])
    && (forall k | 0 <= k < |at| :: at[k] < |ts|)
    && (forall i: nat | i < |ts| :: ts[i] != "" <==> Placed(at, i))
  }

  ghost predicate Picks(ts: seq<string>, at: seq<nat>, out: seq<string>) {
    NonEmptyAt(ts, at) && |out| == |at| && forall k | 0 <= k < |at| :: out[k] == ts[at[k]]
  }

  lemma {:induction false} NonEmptyLast(ts: seq<string>, t: string)
    ensures NonEmpty(ts + [t]) == NonEmpty(ts) + if t != "" then [t] else []
  {
    if ts == [] {
      assert ts + [t] == [t];
    } else {
      assert (ts + [t])[1..] == ts[1..] + [t];
      NonEmptyLast(ts[1..], t);
    }
  }

  lemma {:induction false} NonEmptyPicks(ts: seq<string>) returns (at: seq<nat>)
    ensures Picks(ts, at, NonEmpty(ts))
    decreases |ts|
  {
    at := [];
    if ts != [] {
      var before, last := ts[..|ts| - 1], ts[|ts| - 1];
      assert ts == before + [last];
      NonEmptyLast(before, last);
      var rest := NonEmptyPicks(before);
      at := if last != "" then rest + [|before|] else rest;
      hide NonEmpty;
      PicksLast(before, last, rest, NonEmpty(before));
    }
  }

  lemma PicksLast(ts: seq<string>, t: string, at: seq<nat>, out: seq<string>)
    requires Picks(ts, at, out)
    ensures if t == "" then Picks(ts + [t], at, out) else Picks(ts + [t], at + [|ts|], out + [t])
  {
    var ts' := ts + [t];
    assert forall i | 0 <= i < |ts| :: ts'[i] == ts[i];
    if t == "" {
      assert !Placed(at, |ts|);
    } else {
      var at' := at + [|ts|];
      PlacedLast(at, |ts|);
      assert forall k | 0 <= k < |at| :: at'[k] == at[k];
      hide Placed;
    }
  }

  lemma PlacedLast(at: seq<nat>, n: nat)
    ensures forall i: nat :: Placed(at + [n], i) <==> Placed(at, i) || i == n
  {
    var at' := at + [n];
    forall i: nat ensures Placed(at', i) <==> Placed(at, i) || i == n {
      if Placed(at, i) { var k :| 0 <= k < |at| && at[k] == i; assert at'[k] == i; }
      assert at'[|at|] == n;
    }
  }

  /** The file types are the items of the array that print as something, in their order and in lower case. */
  ghost predicate TypesSaid(r: Raw, out: seq<string>) {
    if !IsArray(r) then out == []
    else exists at: seq<nat>, picked: seq<string> ::
      && Picks(Strings(r.value.items), at, picked) && |out| == |picked|
      && forall k | 0 <= k < |picked| :: InLowerCase(picked[k], out[k])
  }

  lemma TypesAreSaid(r: Raw)
    ensures TypesSaid(r, FileTypes(r))
  {
    if IsArray(r) {
      var items := r.value.items;
      var at := NonEmptyPicks(Lowered(items));
      forall i | 0 <= i < |items| ensures Lowered(items)[i] != "" <==> Strings(items)[i] != "" {
        assert |Lowered(items)[i]| == |Str(items[i])|;
      }
      var picked := PickAlike(Lowered(items), Strings(items), at, FileTypes(r));
      hide Picks, NonEmpty;
      forall k | 0 <= k < |picked| ensures InLowerCase(picked[k], FileTypes(r)[k]) {
        LowersAll(Str(items[at[k]]));
      }
    }
  }

  lemma PickAlike(ts: seq<string>, us: seq<string>, at: seq<nat>, out: seq<string>) returns (picked: seq<string>)
    requires Picks(ts, at, out) && |us| == |ts| && forall i | 0 <= i < |ts| :: ts[i] != "" <==> us[i] != ""
    ensures Picks(us, at, picked) && |picked| == |at| == |out|
    ensures forall k | 0 <= k < |at| :: at[k] < |us| && picked[k] == us[at[k]] && out[k] == ts[at[k]]
  {
    picked := seq(|at|, k requires 0 <= k < |at| => us[at[k]]);
    hide Placed;
  }

  // ------------------------------------------------------------ kind

  predicate Maps(category: string, k: Kind) {
    || (category == "TRIGGER" && k == TRIGGER)
    || (category == "GATEWAY" && k == GATEWAY)
    || (category in {"AUTOMATIC", "MANUAL", "STORAGE"} && k == TASK)
  }

  predicate SaysKind(raw: RawNode, k: Kind) {
    !Falsy(raw.kind) && Maps(Str(raw.kind.value), k)
  }

  predicate SaysType(raw: RawNode, k: Kind) {
    IsText(raw.nodeType) && Maps(raw.nodeType.value.s, k)
  }

  predicate SaysCatalog(catalog: map<string, string>, raw: RawNode, k: Kind) {
    IsText(raw.nodeTypeId) && raw.nodeTypeId.value.s in catalog && Maps(catalog[raw.nodeTypeId.value.s], k)
  }

  ghost predicate KindSaid(catalog: map<string, string>, raw: RawNode, kind: Kind) {
    && (forall k | SaysKind(raw, k) :: kind == k)
    && ((forall k :: !SaysKind(raw, k)) ==>
          && (forall k | SaysType(raw, k) :: kind == k)
          && ((forall k :: !SaysType(raw, k)) ==>
                && (forall k | SaysCatalog(catalog, raw, k) :: kind == k)
                && ((forall k :: !SaysCatalog(catalog, raw, k)) ==> kind == TASK)))
  }

  /** Only an id is required.  The kind is what `kind` says, else what `type` says, else the catalog, else TASK. */
  lemma KindMeaning(catalog: map<string, string>, raw: RawNode)
    ensures NormalizeFlowNode(catalog, raw).None? <==> Falsy(raw.id)
    ensures NormalizeFlowNode(catalog, raw).Some? ==> KindSaid(catalog, raw, NormalizeFlowNode(catalog, raw).value.kind)
  {
    KindInferred(catalog, raw);
    hide PartnerIds, InferKind, NormalizeInputs, NormalizeOutputs, DefaultOutput, Mirrored, Str, KindSaid;
  }

  lemma KindInferred(catalog: map<string, string>, raw: RawNode)
    ensures KindSaid(catalog, raw, InferKind(catalog, raw))
  {
    hide Str, KindByCategory, Maps;
    forall c ensures forall k :: Maps(c, k) <==> KindByCategory(c) == Some(k) { TableAgrees(c); }
    var kind := InferKind(catalog, raw);
    if !SaysKind(raw, kind) {
      assert forall k :: !SaysKind(raw, k);
      if !SaysType(raw, kind) {
        assert forall k :: !SaysType(raw, k);
        if !SaysCatalog(catalog, raw, kind) { assert forall k :: !SaysCatalog(catalog, raw, k); }
      }
    }
  }

  lemma TableAgrees(c: string)
    ensures forall k :: Maps(c, k) <==> KindByCategory(c) == Some(k)
  {
  }

  /** A gateway's logic is its own, else the legacy `gateType`, else AND; no other node has one. */
  lemma LogicMeaning(catalog: map<string, string>, raw: RawNode)
    requires !Falsy(raw.id)
    ensures var n := NormalizeFlowNode(catalog, raw);
      n.Some? && n.value.logic ==
        if n.value.kind != GATEWAY then None
        else if Present(raw.gatewayLogic) then raw.gatewayLogic
        else if raw.config.Config? && IsText(raw.config.gateType) then raw.config.gateType
        else Some(Text("AND"))
  {
    hide PartnerIds, InferKind, NormalizeInputs, NormalizeOutputs, DefaultOutput, Mirrored, Str;
  }

  // ------------------------------------------------------------ inputs

  /** Where an input comes from. */
  predicate SourceSaid(raw: RawInput, s: SourceDef) {
    var said := raw.source;
    if said.SourceObject? && said.kind == Some(Text("PREDECESSOR")) then
      s == FromPredecessor(if IsText(said.nodeId) then said.nodeId.value.s else "",
                           if IsText(said.outputId) then said.outputId.value.s else "")
    else if said.SourceObject? && said.kind == Some(Text("DATASOURCE")) then
      s == FromDataSource(if IsText(said.dataSourceId) then said.dataSourceId.value.s else "", said.query)
    else if IsText(raw.dataSourceId) && raw.dataSourceId != Some(Text("")) then
      s == FromDataSource(raw.dataSourceId.value.s, None)
    else s == ByHand
  }

  ghost predicate InputSaid(raw: RawInput, idx: nat, i: InputDef) {
    && i.id == (if Present(raw.id) then Str(raw.id.value) else "in_" + Digits(idx + 1))
    && FirstNamed(raw.name, raw.labelText, i.id, i.name)
    && i.description == raw.description && i.semantic == raw.semantic
    && (i.many <==> raw.cardinality == Some(Text("MANY")))
    && (i.required <==> !Falsy(raw.required))
    && TypesSaid(raw.fileTypes, i.fileTypes)
    && LimitsSaid(raw, i)
    && SourceSaid(raw, i.source)
  }

  ghost predicate LimitsSaid(raw: RawInput, i: InputDef) {
    && (i.mimeTypes.Some? <==> IsArray(raw.mimeTypes))
    && (IsArray(raw.mimeTypes) ==> EachPrinted(raw.mimeTypes.value.items, i.mimeTypes.value))
    && (forall n :: i.maxSizeMB == Some(n) <==> raw.maxSizeMB == Some(Number(n)))
  }

  ghost predicate EachPrinted(items: seq<Json>, out: seq<string>) {
    |out| == |items| && forall k | 0 <= k < |items| :: out[k] == Str(items[k])
  }

  lemma InputMeaning(raw: RawInput, idx: nat)
    ensures InputSaid(raw, idx, NormalizeInput(raw, idx))
  {
    TypesAreSaid(raw.fileTypes);
    SourceIsSaid(raw, idx);
    InputIsNamed(raw, idx);
    LimitsAreSaid(raw, idx);
    hide TypesSaid, FileTypes, Str, Digits, SourceSaid, NormalizeSource, LimitsSaid, FirstNamed, Strings;
  }

  lemma InputIsNamed(raw: RawInput, idx: nat)
    ensures var i := NormalizeInput(raw, idx);
      && i.id == (if Present(raw.id) then Str(raw.id.value) else "in_" + Digits(idx + 1))
      && FirstNamed(raw.name, raw.labelText, i.id, i.name)
  {
    TextPrints("in_" + Digits(idx + 1));
    TextPrints(NormalizeInput(raw, idx).id);
    hide FileTypes, Str, Digits, NormalizeSource, Strings;
  }

  lemma LimitsAreSaid(raw: RawInput, idx: nat)
    ensures LimitsSaid(raw, NormalizeInput(raw, idx))
  {
    hide FileTypes, Str, Digits, NormalizeSource;
  }

  lemma SourceIsSaid(raw: RawInput, idx: nat)
    ensures SourceSaid(raw, NormalizeInput(raw, idx).source)
  {
    hide Str, Digits, FileTypes;
  }

  /** What the node has itself, else what its configuration has, else nothing. */
  predicate Listed<T(==)>(own: Option<seq<T>>, configured: Option<seq<T>>, items: seq<T>) {
    && (own.Some? ==> items == own.value)
    && (own.None? && configured.Some? ==> items == configured.value)
    && (own.None? && configured.None? ==> items == [])
  }

  predicate InputsListed(raw: RawNode, items: seq<RawInput>) {
    Listed(raw.inputs, if raw.config.Config? then raw.config.inputs else None, items)
  }

  predicate OutputsListed(raw: RawNode, items: seq<RawOutput>) {
    Listed(raw.outputs, if raw.config.Config? then raw.config.outputs else None, items)
  }

  /** The inputs of any node but a trigger, one by one and in their order. */
  lemma InputsMeaning(catalog: map<string, string>, raw: RawNode, items: seq<RawInput>)
    requires !Falsy(raw.id) && InputsListed(raw, items)
    ensures var n := NormalizeFlowNode(catalog, raw); n.Some? && var inputs := n.value.inputs;
      && (n.value.kind == TRIGGER ==> inputs == [])
      && (n.value.kind != TRIGGER ==>
            |inputs| == |items| && forall k | 0 <= k < |items| :: InputSaid(items[k], k, inputs[k]))
  {
    forall k: nat | k < |items| ensures InputSaid(items[k], k, NormalizeInput(items[k], k)) {
      InputMeaning(items[k], k);
    }
    assert items == InputsOf(raw);
    InputsKept(catalog, raw);
    hide NormalizeFlowNode, InputSaid, NormalizeInput;
  }

  lemma InputsKept(catalog: map<string, string>, raw: RawNode)
    requires Truthy(raw.id)
    ensures var n := NormalizeFlowNode(catalog, raw);
      && n.Some? && n.value.inputs == (if n.value.kind == TRIGGER then [] else NormalizeInputs(InputsOf(raw)))
      && n.value.outputs ==
           if n.value.kind == GATEWAY then Mirrored(n.value.inputs)
           else if n.value.kind == TASK && OutputsOf(raw) == [] then [DefaultOutput(raw.config)]
           else NormalizeOutputs(OutputsOf(raw))
  {
    hide PartnerIds, InferKind, DefaultOutput, Mirrored, Str, NormalizeInput, NormalizeOutput;
  }

  // ------------------------------------------------------------ outputs

  ghost predicate OutputSaid(raw: RawOutput, idx: nat, o: OutputDef) {
    && o.id == (if Present(raw.id) then Str(raw.id.value) else "out_" + Digits(idx + 1))
    && FirstNamed(raw.name, raw.labelText, o.id, o.name)
    && o.description == raw.description && o.semantic == raw.semantic
    && (o.many <==> raw.cardinality == Some(Text("MANY")))
    && (o.required <==> !Falsy(raw.required))
    && TypesSaid(raw.fileTypes, o.fileTypes)
    && (forall c :: o.defaultClassification == Some(c) <==> raw.defaultClassification == Some(Text(c)) && IsLevel(c))
  }

  predicate IsLevel(c: string) {
    c == "PUBLIC" || c == "INTERNAL" || c == "PARTNER" || c == "CONFIDENTIAL" || c == "RESTRICTED"
  }

  lemma OutputMeaning(raw: RawOutput, idx: nat)
    ensures OutputSaid(raw, idx, NormalizeOutput(raw, idx))
  {
    TypesAreSaid(raw.fileTypes);
    TextPrints("out_" + Digits(idx + 1));
    TextPrints(NormalizeOutput(raw, idx).id);
    hide TypesSaid, FileTypes, Str, Digits;
  }

  /** The output of a task that declares none. */
  ghost predicate DefaultSaid(config: RawConfig, o: OutputDef) {
    && o.id == "default" && !o.many && !o.required
    && o.description == None && o.semantic == None && o.defaultClassification == None
    && o.name == (if config.Config? && IsText(config.expectedOutput) && config.expectedOutput != Some(Text(""))
                  then "Output (" + config.expectedOutput.value.s + ")" else "Output")
    && if config.Config? && IsArray(config.requiredFileTypes) then
         var items := config.requiredFileTypes.value.items;
         |o.fileTypes| == |items| && forall k | 0 <= k < |items| :: InLowerCase(Str(items[k]), o.fileTypes[k])
       else o.fileTypes == []
  }

  lemma DefaultMeaning(config: RawConfig)
    ensures DefaultSaid(config, DefaultOutput(config))
  {
    hide Str;
  }

  /** A gateway's output is one of its inputs. */
  predicate Mirrors(i: InputDef, o: OutputDef) {
    && o.id == i.id && o.name == i.name && o.description == i.description && o.many == i.many
    && o.required == i.required && o.fileTypes == i.fileTypes && o.defaultClassification == None && o.semantic == None
  }

  /** The outputs: a gateway's mirror its inputs, a task without any has the default one, others are as listed. */
  lemma OutputsMeaning(catalog: map<string, string>, raw: RawNode, items: seq<RawOutput>)
    requires !Falsy(raw.id) && OutputsListed(raw, items)
    ensures var n := NormalizeFlowNode(catalog, raw); n.Some? && var outputs := n.value.outputs;
      && (n.value.kind == GATEWAY ==>
            |outputs| == |n.value.inputs| && forall k | 0 <= k < |outputs| :: Mirrors(n.value.inputs[k], outputs[k]))
      && (n.value.kind == TASK && items == [] ==> |outputs| == 1 && DefaultSaid(raw.config, outputs[0]))
      && (n.value.kind != GATEWAY && (items != [] || n.value.kind != TASK) ==>
            |outputs| == |items| && forall k | 0 <= k < |items| :: OutputSaid(items[k], k, outputs[k]))
  {
    forall k: nat | k < |items| ensures OutputSaid(items[k], k, NormalizeOutput(items[k], k)) {
      OutputMeaning(items[k], k);
    }
    DefaultMeaning(raw.config);
    assert items == OutputsOf(raw);
    InputsKept(catalog, raw);
    hide NormalizeFlowNode, OutputSaid, DefaultSaid, NormalizeOutput, DefaultOutput;
  }

  // ------------------------------------------------------------ partner ids

  /** The list, if it is one, and the single id behind it. */
  function Candidates(ids: Raw, single: Raw): seq<Json> {
    (if IsArray(ids) then ids.value.items else []) + if single.Some? then [single.value] else []
  }

  /** `s` occurs among the candidates up to a place where `t` has not occurred yet. */
  ghost predicate Earlier(all: seq<Json>, s: string, t: string) {
    exists p | 0 <= p < |all| :: all[p] == Text(s) && forall q | 0 <= q <= p :: all[q] != Text(t)
  }

  /** Exactly the texts that are not blank, each once, in the order of their first occurrences. */
  ghost predicate FirstsOf(all: seq<Json>, out: seq<string>) {
    && (forall s :: s in out <==> Text(s) in all && exists c | c in s :: !IsSpace(c))
    && (forall i, j | 0 <= i < j < |out| :: out[i] != out[j])
    && (forall i, j | 0 <= i < j < |out| :: Earlier(all, out[i], out[j]))
  }

  lemma PushFirsts(all: seq<Json>, out: seq<string>, j: Json)
    requires FirstsOf(all, out)
    ensures FirstsOf(all + [j], Push(out, Some(j)))
  {
    var all', out' := all + [j], Push(out, Some(j));
    assert forall x :: x in all' <==> x in all || x == j;
    assert forall s :: Blank(s) <==> !exists c | c in s :: !IsSpace(c);
    forall a, b | 0 <= a < b < |out'| ensures Earlier(all', out'[a], out'[b]) {
      if b < |out| {
        var p :| 0 <= p < |all| && all[p] == Text(out[a]) && forall q | 0 <= q <= p :: all[q] != Text(out[b]);
        assert all'[p] == Text(out[a]) && forall q | 0 <= q <= p :: all'[q] == all[q];
      } else {
        assert out[a] in out && out'[b] !in out;
        var p :| 0 <= p < |all| && all[p] == Text(out[a]);
        assert all'[p] == Text(out[a]);
        forall q | 0 <= q <= p ensures all'[q] != Text(out'[b]) { assert all[q] in all; }
      }
    }
  }

  lemma {:induction false} PushAllSnoc(out: seq<string>, items: seq<Json>, j: Json)
    ensures PushAll(out, items + [j]) == Push(PushAll(out, items), Some(j))
    decreases |items|
  {
    if items != [] {
      assert (items + [j])[1..] == items[1..] + [j];
      PushAllSnoc(Push(out, Some(items[0])), items[1..], j);
    } else {
      assert items + [j] == [j];
    }
  }

  lemma {:induction false} PushAllFirsts(items: seq<Json>)
    ensures FirstsOf(items, PushAll([], items))
    decreases |items|
  {
    hide Push;
    if items != [] {
      var before, last := items[..|items| - 1], items[|items| - 1];
      assert items == before + [last];
      PushAllFirsts(before);
      PushAllSnoc([], before, last);
      PushFirsts(before, PushAll([], before), last);
    }
  }

  /** The partner ids, and the legacy single id, which is the first of them if there is one. */
  lemma PartnersMeaning(catalog: map<string, string>, raw: RawNode)
    requires !Falsy(raw.id)
    ensures var n := NormalizeFlowNode(catalog, raw); n.Some? && var ids := n.value.partnerIds;
      && FirstsOf(Candidates(raw.partnerIds, raw.partnerId), ids)
      && (ids != [] ==> n.value.partnerId == Some(ids[0]))
      && (ids == [] ==> TextOf(raw.partnerId, n.value.partnerId))
  {
    PartnersAreFirsts(raw.partnerIds, raw.partnerId);
    hide PartnerIds, FirstsOf, InferKind, NormalizeInputs, NormalizeOutputs, DefaultOutput, Mirrored, Str, Candidates;
  }

  lemma PartnersAreFirsts(ids: Raw, single: Raw)
    ensures FirstsOf(Candidates(ids, single), PartnerIds(ids, single))
  {
    var items := if IsArray(ids) then ids.value.items else [];
    PushAllFirsts(items);
    hide FirstsOf;
    if single.Some? {
      PushFirsts(items, PushAll([], items), single.value);
    } else {
      assert items + [] == items;
    }
  }

  // ------------------------------------------------------------ the rest

  lemma RestMeaning(catalog: map<string, string>, raw: RawNode)
    requires !Falsy(raw.id)
    ensures NormalizeFlowNode(catalog, raw).Some? && var n := NormalizeFlowNode(catalog, raw).value;
      && n.id == Str(raw.id.value) && FirstNamed(raw.name, raw.labelText, n.id, n.name)
      && n.labelText == (if IsText(raw.labelText) then raw.labelText.value.s else n.name)
      && TextOf(raw.description, n.description) && TextOf(raw.groupId, n.groupId)
      && TextOf(raw.nodeType, n.nodeType) && TextOf(raw.nodeTypeId, n.nodeTypeId)
      && TextOf(raw.responsiblePartner, n.responsiblePartner)
      && (n.tags.Some? <==> IsArray(raw.tags))
      && (IsArray(raw.tags) ==> EachPrinted(raw.tags.value.items, n.tags.value))
      && n.position == (if raw.position.Some? && (raw.position.value.Object? || raw.position.value.Array?)
                        then raw.position.value else Object(map["x" := Number(0), "y" := Number(0)]))
      && n.semantic == raw.semantic && n.config == raw.config
  {
    hide PartnerIds, InferKind, NormalizeInputs, NormalizeOutputs, DefaultOutput, Mirrored, Str;
  }
}
