/**
 Normalisation of stored nodes to the canonical shape, and of the canonical shape again:
 the engine re-normalises nodes that were already normalised when the flow was loaded.

 A raw node is the record of the properties the code reads; None is `undefined`.
 */
module Normalize {
  import opened Wrappers
  import opened Flow
  import opened JsonValues

  type Raw = Option<Json>

  datatype RawSource =
    | NoObject(j: Raw)
    | SourceObject(kind: Raw, nodeId: Raw, outputId: Raw, dataSourceId: Raw, query: Raw)

  datatype RawInput = RawInput(id: Raw, name: Raw, labelText: Raw, description: Raw, cardinality: Raw, required: Raw,
                               fileTypes: Raw, mimeTypes: Raw, maxSizeMB: Raw, source: RawSource, dataSourceId: Raw,
                                 semantic: Raw)

  datatype RawOutput = RawOutput(id: Raw, name: Raw, labelText: Raw, description: Raw, cardinality: Raw, required: Raw,
                                 fileTypes: Raw, defaultClassification: Raw, semantic: Raw)

  /** `config`; the lists are None when the property is not an array. */
  datatype RawConfig =
    | NoConfig
    | Config(inputs: Option<seq<RawInput>>, outputs: Option<seq<RawOutput>>, expectedOutput: Raw,
             requiredFileTypes: Raw, gateType: Raw, rest: Json)

  datatype RawNode = RawNode(id: Raw, kind: Raw, nodeType: Raw, nodeTypeId: Raw, name: Raw, labelText: Raw,
                             description: Raw,
                             tags: Raw, partnerIds: Raw, partnerId: Raw, groupId: Raw, gatewayLogic: Raw,
                             inputs: Option<seq<RawInput>>, outputs: Option<seq<RawOutput>>, position: Raw,
                             semantic: Raw, responsiblePartner: Raw, config: RawConfig)

  // ------------------------------------------------------------ canonical shapes

  datatype SourceDef = ByHand | FromPredecessor(nodeId: string, outputId: string) | FromDataSource(id: string,
                                                query: Raw)

  datatype InputDef = InputDef(id: string, name: string, description: Raw, many: bool, required: bool,
                               fileTypes: seq<string>,
                               mimeTypes: Option<seq<string>>, maxSizeMB: Option<int>, source: SourceDef, semantic: Raw)

  datatype OutputDef = OutputDef(id: string, name: string, description: Raw, many: bool, required: bool,
                                 fileTypes: seq<string>,
                                 defaultClassification: Option<string>, semantic: Raw)

  datatype NodeDef = NodeDef(id: string, kind: Kind, name: string, description: Option<string>,
                             tags: Option<seq<string>>,
                             partnerIds: seq<string>, partnerId: Option<string>, groupId: Option<string>, logic: Raw,
                             inputs: seq<InputDef>, outputs: seq<OutputDef>, position: Json, semantic: Raw,
                             nodeType: Option<string>, nodeTypeId: Option<string>, labelText: string,
                             responsiblePartner: Option<string>, config: RawConfig)

  // ------------------------------------------------------------ JavaScript coercions

  function Digits(n: nat): string {
    var last := [('0' as int + n % 10) as char];
    if n < 10 then last else Digits(n / 10) + last
  }

  /** `String(x)`. */
  function Str(j: Json): string {
    match j
    case Text(s) => s
    case Null => "null"
    case Bool(b) => if b then "true" else "false"
    case Number(n) => if n < 0 then "-" + Digits(-n) else Digits(n)
    case Array(items) => StrItems(items)
    case Object(_) => "[object Object]"
  }

  function StrItems(items: seq<Json>): string {
    if items == [] then ""
    else
      var head := if items[0] == Null then "" else Str(items[0]);
      if |items| == 1 then head else head + "," + StrItems(items[1..])
  }

  predicate Truthy(r: Raw) {
    match r
    case None => false
    case Some(Null) => false
    case Some(Bool(b)) => b
    case Some(Number(n)) => n != 0
    case Some(Text(s)) => s != ""
    case Some(_) => true
  }

  /** `a ?? b`. */
  function Else(a: Raw, b: Raw): Raw {
    if a.None? || a.value == Null then b else a
  }

  function AsText(r: Raw): Option<string> {
    if r.Some? && r.value.Text? then Some(r.value.s) else None
  }

  function TextOr(r: Raw, default: string): string {
    if AsText(r).Some? then AsText(r).value else default
  }

  function LowerChar(c: char): char {
    if 'A' <= c <= 'Z' then (c as int + 32) as char else c
  }

  function Lower(s: string): (r: string)
    ensures |r| == |s|
  {
    seq(|s|, i requires 0 <= i < |s| => LowerChar(s[i]))
  }

  function Strings(items: seq<Json>): (r: seq<string>)
    ensures |r| == |items|
  {
    seq(|items|, i requires 0 <= i < |items| => Str(items[i]))
  }

  function Texts(ts: seq<string>): (r: seq<Json>)
    ensures |r| == |ts|
  {
    seq(|ts|, i requires 0 <= i < |ts| => Text(ts[i]))
  }

  /** `.map(e => String(e).toLowerCase())` */
  function Lowered(items: seq<Json>): (r: seq<string>)
    ensures |r| == |items|
  {
    seq(|items|, i requires 0 <= i < |items| => Lower(Str(items[i])))
  }

  /** `.filter(Boolean)` */
  function NonEmpty(ts: seq<string>): seq<string> {
    if ts == [] then [] else (if ts[0] != "" then [ts[0]] else []) + NonEmpty(ts[1..])
  }

  function FileTypes(r: Raw): seq<string> {
    if r.Some? && r.value.Array? then NonEmpty(Lowered(r.value.items)) else []
  }

  // ------------------------------------------------------------ the node's parts

  function KindByCategory(category: string): Option<Kind> {
    if category == "TRIGGER" then Some(TRIGGER)
    else if category == "GATEWAY" then Some(GATEWAY)
    else if category == "AUTOMATIC" || category == "MANUAL" || category == "STORAGE" then Some(TASK)
    else None
  }

  function KindName(k: Kind): string {
    match k case TRIGGER => "TRIGGER" case TASK => "TASK" case GATEWAY => "GATEWAY"
  }

  /** What `type` and `nodeTypeId` say when `kind` says nothing the table knows. */
  function LegacyKind(catalog: map<string, string>, nodeType: Raw, nodeTypeId: Raw): Kind {
    if AsText(nodeType).Some? && KindByCategory(AsText(nodeType).value).Some?
      then KindByCategory(AsText(nodeType).value).value
    else if AsText(nodeTypeId).Some? && AsText(nodeTypeId).value in catalog
      && KindByCategory(catalog[AsText(nodeTypeId).value]).Some?
        then KindByCategory(catalog[AsText(nodeTypeId).value]).value
    else TASK
  }

  function InferKind(catalog: map<string, string>, raw: RawNode): Kind {
    if Truthy(raw.kind) && KindByCategory(Str(raw.kind.value)).Some? then KindByCategory(Str(raw.kind.value)).value
    else LegacyKind(catalog, raw.nodeType, raw.nodeTypeId)
  }

  function NormalizeSource(raw: RawSource): SourceDef {
    match raw
    case NoObject(_) => ByHand
    case SourceObject(kind, nodeId, outputId, dataSourceId, query) =>
      if AsText(kind) == Some("PREDECESSOR") then FromPredecessor(TextOr(nodeId, ""), TextOr(outputId, ""))
      else if AsText(kind) == Some("DATASOURCE") then FromDataSource(TextOr(dataSourceId, ""), query)
      else ByHand
  }

  function NormalizeInput(raw: RawInput, idx: nat): InputDef {
    var id := Str(Else(raw.id, Some(Text("in_" + Digits(idx + 1)))).value);
    var name := Str(Else(Else(raw.name, raw.labelText), Some(Text(id))).value);
    var source := NormalizeSource(raw.source);
    InputDef(id, name, raw.description, AsText(raw.cardinality) ==
      Some("MANY"), Truthy(raw.required), FileTypes(raw.fileTypes),
      if raw.mimeTypes.Some? && raw.mimeTypes.value.Array? then Some(Strings(raw.mimeTypes.value.items)) else None,
      if raw.maxSizeMB.Some? && raw.maxSizeMB.value.Number? then Some(raw.maxSizeMB.value.n) else None,
      if source.ByHand? && AsText(raw.dataSourceId).Some? && Truthy(raw.dataSourceId)
      then FromDataSource(AsText(raw.dataSourceId).value, None) else source,
      raw.semantic)
  }

  predicate IsClassification(s: string) {
    s in {"PUBLIC", "INTERNAL", "PARTNER", "CONFIDENTIAL", "RESTRICTED"}
  }

  function NormalizeOutput(raw: RawOutput, idx: nat): OutputDef {
    var id := Str(Else(raw.id, Some(Text("out_" + Digits(idx + 1)))).value);
    OutputDef(id, Str(Else(Else(raw.name, raw.labelText), Some(Text(id))).value), raw.description,
      AsText(raw.cardinality) == Some("MANY"), Truthy(raw.required), FileTypes(raw.fileTypes),
      if AsText(raw.defaultClassification).Some? && IsClassification(AsText(raw.defaultClassification).value)
      then AsText(raw.defaultClassification) else None,
      raw.semantic)
  }

  function NormalizeInputs(raws: seq<RawInput>): (r: seq<InputDef>)
    ensures |r| == |raws|
  {
    seq(|raws|, i requires 0 <= i < |raws| => NormalizeInput(raws[i], i))
  }

  function NormalizeOutputs(raws: seq<RawOutput>): (r: seq<OutputDef>)
    ensures |r| == |raws|
  {
    seq(|raws|, i requires 0 <= i < |raws| => NormalizeOutput(raws[i], i))
  }

  function InputsOf(raw: RawNode): seq<RawInput> {
    if raw.inputs.Some? then raw.inputs.value
    else if raw.config.Config? && raw.config.inputs.Some? then raw.config.inputs.value else []
  }

  function OutputsOf(raw: RawNode): seq<RawOutput> {
    if raw.outputs.Some? then raw.outputs.value
    else if raw.config.Config? && raw.config.outputs.Some? then raw.config.outputs.value else []
  }

  /** The single output of a task that declares none; its file types are lowered but not filtered. */
  function DefaultOutput(config: RawConfig): OutputDef {
    var expected := if config.Config? then AsText(config.expectedOutput) else None;
    var types := if config.Config? && config.requiredFileTypes.Some? && config.requiredFileTypes.value.Array?
      then Lowered(config.requiredFileTypes.value.items) else [];
    OutputDef("default", if expected.Some? && expected.value != "" then "Output (" + expected.value + ")"
      else "Output", None, false, false, types, None, None)
  }

  function Mirrored(inputs: seq<InputDef>): (r: seq<OutputDef>)
    ensures |r| == |inputs|
  {
    seq(|inputs|, i requires 0 <= i < |inputs| =>
      var inp := inputs[i];
      OutputDef(inp.id, inp.name, inp.description, inp.many, inp.required, inp.fileTypes, None, None))
  }

  predicate IsSpace(c: char) {
    c == ' ' || c == '\t' || c == '\n' || c == '\r'
  }

  predicate Blank(s: string) {
    forall c | c in s :: IsSpace(c)
  }

  /** `push`: keeps the first of each non-blank string. */
  function Push(out: seq<string>, r: Raw): seq<string> {
    if AsText(r).Some? && !Blank(AsText(r).value) && AsText(r).value !in out then out + [AsText(r).value] else out
  }

  function PushAll(out: seq<string>, items: seq<Json>): seq<string>
    decreases |items|
  {
    if items == [] then out else PushAll(Push(out, Some(items[0])), items[1..])
  }

  function PartnerIds(ids: Raw, single: Raw): seq<string> {
    Push(if ids.Some? && ids.value.Array? then PushAll([], ids.value.items) else [], single)
  }

  /** The same as a loop that pushes onto a local array. */
  method NormalizeResponsiblePartnerIds(ids: Raw, single: Raw) returns (out: seq<string>)
    ensures out == PartnerIds(ids, single)
    ensures forall s | s in out :: !Blank(s)
    ensures forall i, j | 0 <= i < j < |out| :: out[i] != out[j]
  {
    out := [];
    if ids.Some? && ids.value.Array? {
      var items := ids.value.items;
      var i := 0;
      while i < |items|
        invariant 0 <= i <= |items|
        invariant PushAll(out, items[i..]) == PushAll([], items)
        invariant forall s | s in out :: !Blank(s)
        invariant forall i, j | 0 <= i < j < |out| :: out[i] != out[j]
      {
        assert items[i..][0] == items[i] && items[i..][1..] == items[i + 1..];
        out := Push(out, Some(items[i]));
        i := i + 1;
      }
    }
    out := Push(out, single);
  }

  /** `normalizeFlowNode`; None when it throws for want of an id. */
  function NormalizeFlowNode(catalog: map<string, string>, raw: RawNode): Option<NodeDef> {
    if !Truthy(raw.id) then None
    else
      var kind := InferKind(catalog, raw);
      var name := Str(Else(Else(raw.name, raw.labelText), raw.id).value);
      var outputs := NormalizeOutputs(OutputsOf(raw));
      var withDefault := if kind == TASK && outputs == [] then [DefaultOutput(raw.config)] else outputs;
      var logic := Else(raw.gatewayLogic, if raw.config.Config? && AsText(raw.config.gateType).Some?
        then raw.config.gateType else None);
      var inputs := if kind == TRIGGER then [] else NormalizeInputs(InputsOf(raw));
      var partners := PartnerIds(raw.partnerIds, raw.partnerId);
      Some(NodeDef(Str(raw.id.value), kind, name, AsText(raw.description),
        if raw.tags.Some? && raw.tags.value.Array? then Some(Strings(raw.tags.value.items)) else None,
        partners, if partners != [] then Some(partners[0]) else AsText(raw.partnerId), AsText(raw.groupId),
        if kind == GATEWAY then Else(logic, Some(Text("AND"))) else None,
        inputs, if kind == GATEWAY then Mirrored(inputs) else withDefault,
        if raw.position.Some? && (raw.position.value.Object? || raw.position.value.Array?) then raw.position.value
        else Object(map["x" := Number(0), "y" := Number(0)]),
        raw.semantic, AsText(raw.nodeType), AsText(raw.nodeTypeId), TextOr(raw.labelText, name),
        AsText(raw.responsiblePartner), raw.config))
  }

  // ------------------------------------------------------------ a canonical node, read again as a raw one

  function Wrap(s: Option<string>): Raw {
    if s.Some? then Some(Text(s.value)) else None
  }

  function WrapList(ts: Option<seq<string>>): Raw {
    if ts.Some? then Some(Array(Texts(ts.value))) else None
  }

  function RawOfSource(s: SourceDef): RawSource {
    match s
    case ByHand => SourceObject(Some(Text("MANUAL")), None, None, None, None)
    case FromPredecessor(n, o) => SourceObject(Some(Text("PREDECESSOR")), Some(Text(n)), Some(Text(o)), None, None)
    case FromDataSource(id, query) => SourceObject(Some(Text("DATASOURCE")), None, None, Some(Text(id)), query)
  }

  function RawOfInput(i: InputDef): RawInput {
    RawInput(Some(Text(i.id)), Some(Text(i.name)), None, i.description, Some(Text(if i.many then "MANY" else "ONE")),
      Some(Bool(i.required)), WrapList(Some(i.fileTypes)), WrapList(i.mimeTypes),
      if i.maxSizeMB.Some? then Some(Number(i.maxSizeMB.value)) else None, RawOfSource(i.source), None, i.semantic)
  }

  function RawOfOutput(o: OutputDef): RawOutput {
    RawOutput(Some(Text(o.id)), Some(Text(o.name)), None, o.description, Some(Text(if o.many then "MANY" else "ONE")),
      Some(Bool(o.required)), WrapList(Some(o.fileTypes)), Wrap(o.defaultClassification), o.semantic)
  }

  function RawOfInputs(xs: seq<InputDef>): (r: seq<RawInput>)
    ensures |r| == |xs|
  {
    seq(|xs|, i requires 0 <= i < |xs| => RawOfInput(xs[i]))
  }

  function RawOfOutputs(xs: seq<OutputDef>): (r: seq<RawOutput>)
    ensures |r| == |xs|
  {
    seq(|xs|, i requires 0 <= i < |xs| => RawOfOutput(xs[i]))
  }

  function RawOf(n: NodeDef): RawNode {
    RawNode(Some(Text(n.id)), Some(Text(KindName(n.kind))), Wrap(n.nodeType), Wrap(n.nodeTypeId), Some(Text(n.name)),
      Some(Text(n.labelText)), Wrap(n.description), WrapList(n.tags), WrapList(Some(n.partnerIds)), Wrap(n.partnerId),
      Wrap(n.groupId), n.logic, Some(RawOfInputs(n.inputs)), Some(RawOfOutputs(n.outputs)), Some(n.position),
      n.semantic, Wrap(n.responsiblePartner), n.config)
  }

  // ------------------------------------------------------------ when the second pass changes something

  /** `kind` says AUTOMATIC, MANUAL or STORAGE while `type` or `nodeTypeId` says TRIGGER or GATEWAY. */
  predicate KindFlips(catalog: map<string, string>, raw: RawNode) {
    && Truthy(raw.kind) && KindByCategory(Str(raw.kind.value)) == Some(TASK)
    && LegacyKind(catalog, raw.nodeType, raw.nodeTypeId) != TASK
  }

  /** A task without outputs whose configured file types contain an empty name. */
  predicate KeepsEmptyFileType(catalog: map<string, string>, raw: RawNode) {
    && InferKind(catalog, raw) == TASK && OutputsOf(raw) == []
    && raw.config.Config? && raw.config.requiredFileTypes.Some? && raw.config.requiredFileTypes.value.Array?
    && exists j | j in raw.config.requiredFileTypes.value.items :: Str(j) == ""
  }

  lemma SecondKind(catalog: map<string, string>, raw: RawNode, n: NodeDef)
    requires NormalizeFlowNode(catalog, raw) == Some(n)
    ensures InferKind(catalog, RawOf(n)) == n.kind <==> !KindFlips(catalog, raw)
  {
    assert LegacyKind(catalog, Wrap(n.nodeType), Wrap(n.nodeTypeId)) ==
      LegacyKind(catalog, raw.nodeType, raw.nodeTypeId);
    assert KindByCategory(KindName(TASK)).None?;
  }

  predicate Clean(ts: seq<string>) {
    forall t | t in ts :: t != "" && Lower(t) == t
  }

  lemma LowerTwice(s: string)
    ensures Lower(Lower(s)) == Lower(s)
  {
  }

  lemma {:induction false} NonEmptyMembers(ts: seq<string>)
    ensures forall t :: t in NonEmpty(ts) <==> t in ts && t != ""
    ensures |NonEmpty(ts)| <= |ts| && ((forall t | t in ts :: t != "") <==> NonEmpty(ts) == ts)
  {
    if ts != [] {
      NonEmptyMembers(ts[1..]);
      assert forall t :: t in ts <==> t == ts[0] || t in ts[1..];
      assert ts == [ts[0]] + ts[1..];
      if ts[0] == "" {
        assert NonEmpty(ts) == NonEmpty(ts[1..]) && |NonEmpty(ts)| < |ts| && ts[0] in ts;
      } else {
        assert NonEmpty(ts) == [ts[0]] + NonEmpty(ts[1..]);
        assert NonEmpty(ts)[1..] == NonEmpty(ts[1..]);
        assert NonEmpty(ts) == ts ==> NonEmpty(ts[1..]) == ts[1..];
      }
    }
  }

  lemma FileTypesClean(r: Raw)
    ensures Clean(FileTypes(r))
  {
    if r.Some? && r.value.Array? {
      NonEmptyMembers(Lowered(r.value.items));
      forall t | t in Lowered(r.value.items) ensures Lower(t) == t {
        var i :| 0 <= i < |r.value.items| && Lowered(r.value.items)[i] == t;
        LowerTwice(Str(r.value.items[i]));
      }
    }
  }

  lemma FileTypesAgain(ts: seq<string>)
    requires forall t | t in ts :: Lower(t) == t
    ensures FileTypes(Some(Array(Texts(ts)))) == ts <==> forall t | t in ts :: t != ""
  {
    assert Lowered(Texts(ts)) == ts;
    NonEmptyMembers(ts);
  }

  lemma StringsOfTexts(ts: seq<string>)
    ensures Strings(Texts(ts)) == ts
  {
  }

  lemma InputAgain(raw: RawInput, i: nat, j: nat)
    ensures NormalizeInput(RawOfInput(NormalizeInput(raw, i)), j) == NormalizeInput(raw, i)
  {
    var x := NormalizeInput(raw, i);
    FileTypesClean(raw.fileTypes);
    FileTypesAgain(x.fileTypes);
    if x.mimeTypes.Some? { StringsOfTexts(x.mimeTypes.value); }
    SourceAgain(x.source);
    CardinalityAgain(x.many);
    hide FileTypes, Texts, Strings, Digits, NormalizeSource, RawOfSource;
  }

  lemma SourceAgain(s: SourceDef)
    ensures NormalizeSource(RawOfSource(s)) == s
  {
  }

  lemma CardinalityAgain(many: bool)
    ensures AsText(Some(Text(if many then "MANY" else "ONE"))) == Some("MANY") <==> many
  {
  }

  lemma InputsAgain(raws: seq<RawInput>)
    ensures NormalizeInputs(RawOfInputs(NormalizeInputs(raws))) == NormalizeInputs(raws)
  {
    forall i | 0 <= i < |raws|
      ensures NormalizeInput(RawOfInput(NormalizeInput(raws[i], i)), i) == NormalizeInput(raws[i], i)
    {
      InputAgain(raws[i], i, i);
    }
  }

  /** One output comes back unchanged unless it carries an empty file type. */
  lemma OutputAgain(o: OutputDef, j: nat)
    requires forall t | t in o.fileTypes :: Lower(t) == t
    requires o.defaultClassification.Some? ==> IsClassification(o.defaultClassification.value)
    ensures NormalizeOutput(RawOfOutput(o), j) == o <==> forall t | t in o.fileTypes :: t != ""
  {
    FileTypesAgain(o.fileTypes);
    assert AsText(Some(Text("ONE"))) != Some("MANY");
  }

  lemma OutputsAgain(raws: seq<RawOutput>)
    ensures NormalizeOutputs(RawOfOutputs(NormalizeOutputs(raws))) == NormalizeOutputs(raws)
  {
    forall i | 0 <= i < |raws|
      ensures NormalizeOutput(RawOfOutput(NormalizeOutput(raws[i], i)), i) == NormalizeOutput(raws[i], i)
    {
      FileTypesClean(raws[i].fileTypes);
      OutputAgain(NormalizeOutput(raws[i], i), i);
    }
  }

  /** The implicit output comes back unchanged unless the configuration named an empty file type. */
  lemma DefaultAgain(config: RawConfig)
    ensures NormalizeOutputs(RawOfOutputs([DefaultOutput(config)])) == [DefaultOutput(config)] <==>
      !(config.Config? && config.requiredFileTypes.Some? && config.requiredFileTypes.value.Array?
        && exists j | j in config.requiredFileTypes.value.items :: Str(j) == "")
  {
    var o := DefaultOutput(config);
    forall t | t in o.fileTypes ensures Lower(t) == t {
      var items := config.requiredFileTypes.value.items;
      var i :| 0 <= i < |items| && Lowered(items)[i] == t;
      LowerTwice(Str(items[i]));
    }
    OutputAgain(o, 0);
    assert NormalizeOutputs(RawOfOutputs([o]))[0] == NormalizeOutput(RawOfOutput(o), 0);
    if config.Config? && config.requiredFileTypes.Some? && config.requiredFileTypes.value.Array? {
      var items := config.requiredFileTypes.value.items;
      forall j | j in items ensures Lower(Str(j)) in o.fileTypes {
        var i :| 0 <= i < |items| && items[i] == j;
        assert o.fileTypes[i] == Lower(Str(j));
      }
      forall t | t in o.fileTypes ensures exists j | j in items :: Lower(Str(j)) == t {
        var i :| 0 <= i < |items| && o.fileTypes[i] == t;
        assert items[i] in items;
      }
      forall j ensures Lower(Str(j)) == "" <==> Str(j) == "" { assert |Lower(Str(j))| == |Str(j)|; }
    }
  }

  // ------------------------------------------------------------ partner ids

  predicate GoodIds(ids: seq<string>) {
    (forall s | s in ids :: !Blank(s)) && forall i, j | 0 <= i < j < |ids| :: ids[i] != ids[j]
  }

  lemma {:induction false} PushAllGood(out: seq<string>, items: seq<Json>)
    requires GoodIds(out)
    ensures GoodIds(PushAll(out, items))
    decreases |items|
  {
    if items != [] { PushAllGood(Push(out, Some(items[0])), items[1..]); }
  }

  lemma {:induction false} PushAllAgain(out: seq<string>, rest: seq<string>)
    requires GoodIds(out + rest)
    ensures PushAll(out, Texts(rest)) == out + rest
    decreases |rest|
  {
    if rest == [] {
      assert out + rest == out;
    } else {
      var s := rest[0];
      assert (out + rest)[|out|] == s && s in out + rest;
      forall i | 0 <= i < |out| ensures out[i] != s { assert (out + rest)[i] == out[i]; }
      assert (out + [s]) + rest[1..] == out + rest;
      assert Texts(rest)[1..] == Texts(rest[1..]);
      PushAllAgain(out + [s], rest[1..]);
    }
  }

  /** Pushing the list and then its own first element gives the list. */
  lemma PartnersAgain(ids: Raw, single: Raw)
    ensures var out := PartnerIds(ids, single);
      PartnerIds(WrapList(Some(out)), if out != [] then Some(Text(out[0])) else Wrap(AsText(single))) == out
  {
    var out := PartnerIds(ids, single);
    if ids.Some? && ids.value.Array? { PushAllGood([], ids.value.items); }
    assert GoodIds(out);
    assert [] + out == out;
    PushAllAgain([], out);
  }

  // ------------------------------------------------------------ the theorem

  /**
   A second normalisation changes nothing if and only if the kind does not flip, no empty file
   type was kept, and the id does not print as nothing (the empty array does).
   */
  lemma NormalizeTwice(catalog: map<string, string>, raw: RawNode)
    requires Truthy(raw.id)
    ensures var once := NormalizeFlowNode(catalog, raw).value;
      NormalizeFlowNode(catalog, RawOf(once)) == Some(once) <==>
      (Str(raw.id.value) != "" && !KindFlips(catalog, raw) && !KeepsEmptyFileType(catalog, raw))
  {
    hide *;
    SomeOnce(catalog, raw);
    var once := NormalizeFlowNode(catalog, raw).value;
    SecondExists(catalog, raw, once);
    SecondKind(catalog, raw, once);
    if NormalizeFlowNode(catalog, RawOf(once)).Some? {
      var twice := NormalizeFlowNode(catalog, RawOf(once)).value;
      SecondHasKind(catalog, raw, once);
      if !KindFlips(catalog, raw) {
        InputsAgain(InputsOf(raw));
        OutputsAgain(OutputsOf(raw));
        SecondOutputs(catalog, raw, once);
        DefaultKept(catalog, raw);
        SecondRest(catalog, raw, once);
        SecondLists(catalog, raw, once);
      }
    }
  }

  /** The second pass refuses a node exactly if its id prints as nothing. */
  lemma SecondExists(catalog: map<string, string>, raw: RawNode, once: NodeDef)
    requires NormalizeFlowNode(catalog, raw) == Some(once)
    ensures Truthy(raw.id) && (NormalizeFlowNode(catalog, RawOf(once)).Some? <==> Str(raw.id.value) != "")
  {
  }

  lemma SecondHasKind(catalog: map<string, string>, raw: RawNode, once: NodeDef)
    requires NormalizeFlowNode(catalog, raw) == Some(once) && NormalizeFlowNode(catalog, RawOf(once)).Some?
    ensures NormalizeFlowNode(catalog, RawOf(once)).value.kind == InferKind(catalog, RawOf(once))
    ensures once.kind == InferKind(catalog, raw)
  {
  }

  lemma SecondLists(catalog: map<string, string>, raw: RawNode, once: NodeDef)
    requires NormalizeFlowNode(catalog, raw) == Some(once) && NormalizeFlowNode(catalog, RawOf(once)).Some?
    ensures var twice := NormalizeFlowNode(catalog, RawOf(once)).value;
      twice.partnerIds == once.partnerIds && twice.partnerId == once.partnerId && twice.tags == once.tags
  {
    PartnersAgain(raw.partnerIds, raw.partnerId);
    if once.tags.Some? { StringsOfTexts(once.tags.value); }
    hide PartnerIds, InferKind, NormalizeInputs, NormalizeOutputs, DefaultOutput, Mirrored;
  }

  lemma DefaultKept(catalog: map<string, string>, raw: RawNode)
    ensures KeepsEmptyFileType(catalog, raw) <==>
      !(InferKind(catalog, raw) == TASK && OutputsOf(raw) == [] ==>
        NormalizeOutputs(RawOfOutputs([DefaultOutput(raw.config)])) == [DefaultOutput(raw.config)])
  {
    DefaultAgain(raw.config);
    hide NormalizeOutputs, RawOfOutputs, DefaultOutput, InferKind;
  }

  const PLAIN := RawNode(Some(Text("a")), None, None, None, None, None, None, None, None, None, None, None,
                         None, None, None, None, None, NoConfig)

  /** A manual node that its type calls a gateway. */
  const FLIPPING := PLAIN.(kind := Some(Text("MANUAL")), nodeType := Some(Text("GATEWAY")))

  /** A node whose id is an empty list, which is no missing id but prints as nothing. */
  const NAMELESS := PLAIN.(id := Some(Array([])))

  /** A node without outputs whose configuration names an empty file type. */
  const EMPTY_TYPED := PLAIN.(config := Config(None, None, None, Some(Array([Text("")])), None, Null))

  /** Each exception arises. */
  lemma SecondPassChanges(catalog: map<string, string>, raw: RawNode)
    requires raw == FLIPPING || raw == NAMELESS || raw == EMPTY_TYPED
    ensures Truthy(raw.id)
    ensures var once := NormalizeFlowNode(catalog, raw);
      once.Some? && NormalizeFlowNode(catalog, RawOf(once.value)) != once
  {
    hide NormalizeFlowNode, RawOf;
    NormalizeTwice(catalog, raw);
    FlippingFlips(catalog);
    EmptyTypeKept(catalog);
    SomeOnce(catalog, raw);
  }

  lemma SomeOnce(catalog: map<string, string>, raw: RawNode)
    requires Truthy(raw.id)
    ensures NormalizeFlowNode(catalog, raw).Some?
  {
  }

  lemma FlippingFlips(catalog: map<string, string>)
    ensures KindFlips(catalog, FLIPPING)
  {
  }

  lemma EmptyTypeKept(catalog: map<string, string>)
    ensures KeepsEmptyFileType(catalog, EMPTY_TYPED)
  {
    var items := EMPTY_TYPED.config.requiredFileTypes.value.items;
    assert items[0] in items && Str(items[0]) == "";
  }

  lemma SecondOutputs(catalog: map<string, string>, raw: RawNode, once: NodeDef)
    requires NormalizeFlowNode(catalog, raw) == Some(once) && NormalizeFlowNode(catalog, RawOf(once)).Some?
    requires InferKind(catalog, RawOf(once)) == once.kind
    requires NormalizeInputs(RawOfInputs(NormalizeInputs(InputsOf(raw)))) == NormalizeInputs(InputsOf(raw))
    requires NormalizeOutputs(RawOfOutputs(NormalizeOutputs(OutputsOf(raw)))) == NormalizeOutputs(OutputsOf(raw))
    ensures var twice := NormalizeFlowNode(catalog, RawOf(once)).value;
      && twice.inputs == once.inputs
      && (twice.outputs == once.outputs <==>
            (once.kind == TASK && OutputsOf(raw) == [] ==>
              NormalizeOutputs(RawOfOutputs([DefaultOutput(raw.config)])) == [DefaultOutput(raw.config)]))
  {
    assert RawOfInputs([]) == [] && NormalizeInputs([]) == [];
    hide PartnerIds, InferKind, DefaultOutput, Digits;
  }

  lemma SecondRest(catalog: map<string, string>, raw: RawNode, once: NodeDef)
    requires NormalizeFlowNode(catalog, raw) == Some(once) && NormalizeFlowNode(catalog, RawOf(once)).Some?
    requires InferKind(catalog, RawOf(once)) == once.kind
    ensures var twice := NormalizeFlowNode(catalog, RawOf(once)).value;
      twice == once.(partnerIds := twice.partnerIds, partnerId := twice.partnerId, tags := twice.tags,
                     inputs := twice.inputs, outputs := twice.outputs)
  {
  }
}
