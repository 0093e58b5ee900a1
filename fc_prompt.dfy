/** The function-calling system prompt (`src/fc/prompt.rs`): the per-process
    trigger signal, the validation and rendering of the tool list, the
    template substitution, the tool-choice suffix, and the bounded cache of
    generated prompts. */
module FcPrompt {
  import opened Wrappers
  import opened Bytes
  import opened JsonValue
  import opened Canonical
  import Util

  // ------------------------------------------------------------------------
  // Trigger signal

  /** The i-th of the 62 ASCII alphanumerics, in the order the source lists
      them: digits, then upper case, then lower case. */
  function AlnumAt(i: nat): (b: byte)
    requires i < 62
    ensures IsAsciiAlnum(b)
  {
    if i < 10 then ('0' as int + i) as char
    else if i < 36 then ('A' as int + (i - 10)) as char
    else ('a' as int + (i - 36)) as char
  }

  /** Where an alphanumeric sits in that alphabet. */
  function AlnumIndex(b: byte): (i: nat)
    requires IsAsciiAlnum(b)
    ensures i < 62 && AlnumAt(i) == b
  {
    if IsDigit(b) then b as int - '0' as int
    else if 'A' <= b <= 'Z' then b as int - 'A' as int + 10
    else b as int - 'a' as int + 36
  }

  const TRIGGER_PREFIX: bytes := "<Function_"
  const TRIGGER_SUFFIX: bytes := "_Start/>"

  /** The shape of a trigger signal: the prefix, four ASCII alphanumerics,
      the suffix. */
  predicate IsTriggerSignal(t: bytes) {
    |t| == 22 && t[..10] == TRIGGER_PREFIX && t[14..] == TRIGGER_SUFFIX
    && forall k | 10 <= k < 14 :: IsAsciiAlnum(t[k])
  }

  /** The trigger signal made from four random draws, each an index into the
      alphabet; the draws themselves come from the caller. */
  function TriggerSignal(draws: seq<nat>): (t: bytes)
    requires |draws| == 4 && forall i | 0 <= i < 4 :: draws[i] < 62
    ensures IsTriggerSignal(t)
  {
    TRIGGER_PREFIX + seq(4, i requires 0 <= i < 4 => AlnumAt(draws[i])) + TRIGGER_SUFFIX
  }

  /** Every string of the trigger's shape is the signal of some draws, so the
      shape describes exactly the signals the gateway can pick. */
  lemma EveryTriggerShapeIsDrawn(t: bytes)
    requires IsTriggerSignal(t)
    ensures exists draws: seq<nat> | |draws| == 4 && (forall i | 0 <= i < 4 :: draws[i] < 62) :: TriggerSignal(draws) == t
  {
    var draws := seq(4, i requires 0 <= i < 4 => AlnumIndex(t[10 + i]));
    assert t == t[..10] + t[10..14] + t[14..];
    assert TriggerSignal(draws) == t;
  }

  /** A trigger signal starts with `<` and holds no `{`, so no placeholder
      of a template can begin inside it. */
  lemma TriggerSignalBytes(t: bytes)
    requires IsTriggerSignal(t)
    ensures t[0] == '<'
    ensures !HasByte(t, '{')
  {
    assert t[0] == t[..10][0];
    forall k | 0 <= k < |t| ensures t[k] != '{' {
      if k < 10 {
        assert t[k] == t[..10][k];
      } else if k >= 14 {
        assert t[k] == t[14..][k - 14];
      }
    }
  }

  // ------------------------------------------------------------------------
  // Template

  const TOOLS_LIST_SLOT: bytes := "{tools_list}"
  const TRIGGER_SLOT: bytes := "{trigger_signal}"

  /** The head of the default template, before its tool-list placeholder. */
  const DEFAULT_HEAD: bytes :=
    "\nYou have access" + " to the following" + " available tools" + " to help solve" + " problems:\n\n"

  /** Bytes missing from two texts are missing from their concatenation. */
  lemma NoByteConcat(a: bytes, b: bytes, x: byte)
    requires !HasByte(a, x) && !HasByte(b, x)
    ensures !HasByte(a + b, x)
  {
    forall k | 0 <= k < |a + b| ensures (a + b)[k] != x {
      if k < |a| {
        assert (a + b)[k] == a[k];
      } else {
        assert (a + b)[k] == b[k - |a|];
      }
    }
  }

  /** The head holds no `{`, so no placeholder starts in it. */
  lemma HeadHasNoBrace()
    ensures !HasByte(DEFAULT_HEAD, '{')
  {
    var a, b, c, d, e := "\nYou have access", " to the following", " available tools", " to help solve", " problems:\n\n";
    assert !HasByte(a, '{') && !HasByte(b, '{') && !HasByte(c, '{') && !HasByte(d, '{') && !HasByte(e, '{');
    NoByteConcat(a, b, '{');
    NoByteConcat(a + b, c, '{');
    NoByteConcat(a + b + c, d, '{');
    NoByteConcat(a + b + c + d, e, '{');
  }

  /** What the process fixes once (`TRIGGER_SIGNAL` and
      `DEFAULT_PROMPT_TEMPLATE`): the trigger signal, and the default
      template's instructions that follow its tool-list placeholder, with
      the trigger already written into them. */
  datatype PromptSetup = PromptSetup(trigger: bytes, defaultRest: bytes)

  /** The setup the process builds: a trigger of the right shape, shown by
      the default instructions. */
  predicate ValidSetup(setup: PromptSetup) {
    IsTriggerSignal(setup.trigger) && Contains(setup.defaultRest, setup.trigger)
  }

  /** The default template: the head, the one tool-list placeholder, the
      instructions. */
  function DefaultTemplate(setup: PromptSetup): bytes {
    DEFAULT_HEAD + TOOLS_LIST_SLOT + setup.defaultRest
  }

  /** The prompt body before the tool-choice suffix: a custom template gets
      the trigger substituted first and the tool list second; the default
      template (trigger already in place) gets the tool list. */
  function TemplateText(customTemplate: Option<bytes>, setup: PromptSetup, toolsList: bytes): bytes {
    match customTemplate
    case Some(tmpl) => ReplaceAll(ReplaceAll(tmpl, TRIGGER_SLOT, setup.trigger), TOOLS_LIST_SLOT, toolsList)
    case None => ReplaceAll(DefaultTemplate(setup), TOOLS_LIST_SLOT, toolsList)
  }

  /** The constraint each tool choice adds to the prompt; `auto` adds none. */
  function ChoiceConstraint(choice: ToolChoice): Option<bytes> {
    match choice
    case NoTools => Some("Do NOT call any function.")
    case Auto => None
    case Required => Some("You MUST call at least one function.")
    case Specific(name) => Some("You MUST call the function: " + name)
  }

  /** The constraint as appended, after a blank line. */
  function ChoiceSuffix(choice: ToolChoice): bytes {
    match ChoiceConstraint(choice)
    case None => []
    case Some(c) => "\n\n" + c
  }

  // ------------------------------------------------------------------------
  // Tool list

  /** `json_type_name`: the Python name of a JSON value's type, as the error
      messages spell it. */
  function PythonTypeName(j: Json): bytes {
    match j
    case Null => "NoneType"
    case Bool(_) => "bool"
    case Number(_) => "number"
    case Str(_) => "str"
    case Array(_) => "list"
    case Object(_) => "dict"
  }

  /** Why a tool's schema cannot be rendered; each names the tool. */
  datatype PromptError =
    | PropertiesNotObject(tool: bytes, got: bytes)
    | RequiredEntryNotString(tool: bytes, entry: Json)
    | RequiredNotList(tool: bytes, got: bytes)
    | MissingRequired(tool: bytes, missing: seq<bytes>)

  type Fields = seq<(bytes, Json)>

  /** The `properties` member of a tool's schema: absent or null means none. */
  function PropertiesOf(tool: ToolSpec): Result<Option<Fields>, PromptError> {
    match Get(tool.parameters, "properties")
    case None => Ok(None)
    case Some(j) =>
      if j.Null? then Ok(None)
      else if j.Object? then Ok(Some(j.fields))
      else Err(PropertiesNotObject(tool.name, PythonTypeName(j)))
  }

  /** The entries of a `required` list as strings, or the first entry that
      is not a string. */
  function RequiredStrings(name: bytes, items: seq<Json>): (r: Result<seq<bytes>, PromptError>)
    ensures r.Ok? <==> forall i | 0 <= i < |items| :: items[i].Str?
    ensures r.Ok? ==> |r.value| == |items| && forall i | 0 <= i < |items| :: items[i] == Str(r.value[i])
    ensures r.Err? ==> r.error.RequiredEntryNotString?
  {
    if |items| == 0 then Ok([])
    else if !items[0].Str? then Err(RequiredEntryNotString(name, items[0]))
    else
      match RequiredStrings(name, items[1..])
      case Ok(rest) => Ok([items[0].s] + rest)
      case Err(e) => Err(e)
  }

  /** The entry a failing `RequiredStrings` reports is the first non-string. */
  lemma {:induction false} RequiredStringsReportsFirst(name: bytes, items: seq<Json>)
    requires RequiredStrings(name, items).Err?
    ensures exists i | 0 <= i < |items| ::
      !items[i].Str? && (forall j | 0 <= j < i :: items[j].Str?)
      && RequiredStrings(name, items).error == RequiredEntryNotString(name, items[i])
  {
    if items[0].Str? {
      RequiredStringsReportsFirst(name, items[1..]);
      var i :| 0 <= i < |items[1..]| && !items[1..][i].Str? && (forall j | 0 <= j < i :: items[1..][j].Str?)
        && RequiredStrings(name, items[1..]).error == RequiredEntryNotString(name, items[1..][i]);
      assert !items[i + 1].Str?;
    } else {
      assert !items[0].Str?;
    }
  }

  /** The `required` member: absent or null means none, a list must hold
      only strings, anything else is refused. */
  function RequiredOf(tool: ToolSpec): Result<seq<bytes>, PromptError> {
    match Get(tool.parameters, "required")
    case None => Ok([])
    case Some(j) =>
      if j.Null? then Ok([])
      else if j.Array? then RequiredStrings(tool.name, j.items)
      else Err(RequiredNotList(tool.name, PythonTypeName(j)))
  }

  /** `properties` defines `key` (`contains_key`). */
  predicate Declared(props: Option<Fields>, key: bytes) {
    props.Some? && Lookup(props.value, key).Some?
  }

  /** The required names that `properties` does not define, in order. */
  function MissingKeys(required: seq<bytes>, props: Option<Fields>): (r: seq<bytes>)
    ensures |r| <= |required|
  {
    if |required| == 0 then []
    else (if Declared(props, required[0]) then [] else [required[0]]) + MissingKeys(required[1..], props)
  }

  /** The missing names are exactly the required names `properties` does
      not define. */
  lemma {:induction false} MissingKeysMeaning(required: seq<bytes>, props: Option<Fields>)
    ensures forall k :: k in MissingKeys(required, props) <==> k in required && !Declared(props, k)
  {
    if |required| > 0 {
      MissingKeysMeaning(required[1..], props);
      assert required == [required[0]] + required[1..];
    }
  }

  /** What the checks leave for rendering. */
  datatype ToolSchema = ToolSchema(props: Option<Fields>, required: seq<bytes>)

  /** The checks `format_tools_list` makes on one tool, in its order:
      `properties`, then `required`, then that every required name is a
      property. */
  function CheckTool(tool: ToolSpec): Result<ToolSchema, PromptError> {
    var props :- PropertiesOf(tool);
    var required :- RequiredOf(tool);
    var missing := MissingKeys(required, props);
    if |missing| > 0 then Err(MissingRequired(tool.name, missing))
    else Ok(ToolSchema(props, required))
  }

  /** A schema the gateway renders: `properties` absent, null or an object;
      `required` absent, null, or a list of strings each naming a property. */
  predicate RenderableSchema(params: Json) {
    var props := Get(params, "properties");
    var req := Get(params, "required");
    (props.None? || props.value.Null? || props.value.Object?)
    && (req.None? || req.value.Null?
        || (req.value.Array?
            && forall i | 0 <= i < |req.value.items| ::
                 req.value.items[i].Str? && props.Some? && props.value.Object?
                 && Lookup(props.value.fields, req.value.items[i].s).Some?))
  }

  /** A tool passes the checks exactly when its schema is renderable. */
  lemma CheckToolAcceptsExactly(tool: ToolSpec)
    ensures CheckTool(tool).Ok? <==> RenderableSchema(tool.parameters)
  {
    if PropertiesOf(tool).Ok? && RequiredOf(tool).Ok? {
      var props := PropertiesOf(tool).value;
      var required := RequiredOf(tool).value;
      var missing := MissingKeys(required, props);
      MissingKeysMeaning(required, props);
      var req := Get(tool.parameters, "required");
      if req.Some? && req.value.Array? {
        var items := req.value.items;
        assert forall i | 0 <= i < |items| :: items[i] == Str(required[i]);
        if |missing| > 0 {
          var k := missing[0];
          assert k in required;
          var i :| 0 <= i < |required| && required[i] == k;
          assert !Declared(props, items[i].s);
        } else {
          forall i | 0 <= i < |items| ensures Declared(props, items[i].s) {
            assert required[i] in required;
          }
        }
      } else {
        assert required == [];
      }
    }
  }

  /** A missing-name error comes after both members passed, and lists
      exactly the required names that are not properties. */
  lemma MissingRequiredNamesUndeclared(tool: ToolSpec)
    requires CheckTool(tool).Err? && CheckTool(tool).error.MissingRequired?
    ensures PropertiesOf(tool).Ok? && RequiredOf(tool).Ok?
    ensures var e := CheckTool(tool).error;
      e.tool == tool.name && |e.missing| > 0
      && forall k :: k in e.missing <==> k in RequiredOf(tool).value && !Declared(PropertiesOf(tool).value, k)
  {
    MissingKeysMeaning(RequiredOf(tool).value, PropertiesOf(tool).value);
  }

  /** The `type` a property declares, or "any". */
  function ParamType(info: Json): bytes {
    match Get(info, "type")
    case Some(t) => if t.Str? then t.s else "any"
    case None => "any"
  }

  /** `parts` with `sep` between neighbours (`join`). */
  function Join(parts: seq<bytes>, sep: bytes): bytes
    decreases |parts|
  {
    if |parts| == 0 then []
    else if |parts| == 1 then parts[0]
    else parts[0] + sep + Join(parts[1..], sep)
  }

  /** Every part occurs in the joined text. */
  lemma {:induction false} JoinContainsPart(parts: seq<bytes>, sep: bytes, i: nat)
    requires i < |parts|
    ensures Contains(Join(parts, sep), parts[i])
    decreases |parts|
  {
    var t := Join(parts, sep);
    if i == 0 {
      assert t[..|parts[0]|] == parts[0];
      assert MatchAt(t, parts[0], 0);
      ContainsIff(t, parts[0]);
    } else {
      JoinContainsPart(parts[1..], sep, i - 1);
      ContainsAfterPrefix(parts[0] + sep, Join(parts[1..], sep), parts[i]);
    }
  }

  /** "name (type), ..." for the properties, or "None" when there are none. */
  function ParamsSummary(props: Option<Fields>): bytes {
    if props.None? || |props.value| == 0 then "None"
    else
      var fields := props.value;
      Join(seq(|fields|, i requires 0 <= i < |fields| => fields[i].0 + " (" + ParamType(fields[i].1) + ")"), ", ")
  }

  /** `format_param_detail`: the detail lines of one property, given its
      name, its schema and the required names. */
  type ParamDetail = (bytes, Json, seq<bytes>) -> seq<bytes>

  /** The detail lines of all properties, in order. */
  function DetailLines(fields: Fields, required: seq<bytes>, detail: ParamDetail): seq<bytes>
    decreases |fields|
  {
    if |fields| == 0 then []
    else
      var last := fields[|fields| - 1];
      DetailLines(fields[..|fields| - 1], required, detail) + detail(last.0, last.1, required)
  }

  /** The block that describes the i-th tool (counting from 0) in the list. */
  function ToolBlock(i: nat, tool: ToolSpec, schema: ToolSchema, detail: ParamDetail): bytes {
    var desc := tool.description.GetOr([]);
    var descBlock := if |desc| == 0 then "None" else "```\n" + desc + "\n```";
    var requiredText := if |schema.required| == 0 then "None" else Join(schema.required, ", ");
    var lines := if schema.props.Some? then DetailLines(schema.props.value, schema.required, detail) else [];
    var detailBlock := if |lines| == 0 then "(no parameter details)" else Join(lines, "\n");
    var body := "\n   Description:\n" + descBlock
      + "\n   Parameters summary: " + ParamsSummary(schema.props)
      + "\n   Required parameters: " + requiredText
      + "\n   Parameter details:\n" + detailBlock;
    Util.Decimal(i + 1) + ". " + ToolTag(tool.name) + body
  }

  /** The tag that opens a tool's block. */
  function ToolTag(name: bytes): bytes { "<tool name=\"" + name + "\">" }

  /** How a checked tool becomes its block, given its position. */
  type BlockRenderer = (nat, ToolSpec, ToolSchema) -> bytes

  function Renderer(detail: ParamDetail): BlockRenderer {
    (i: nat, tool: ToolSpec, schema: ToolSchema) => ToolBlock(i, tool, schema, detail)
  }

  /** The blocks of all tools in order, or the error of the first tool that
      fails its checks. */
  function RenderedBlocks(tools: seq<ToolSpec>, render: BlockRenderer): Result<seq<bytes>, PromptError>
    decreases |tools|
  {
    if |tools| == 0 then Ok([])
    else
      var blocks :- RenderedBlocks(tools[..|tools| - 1], render);
      var schema :- CheckTool(tools[|tools| - 1]);
      Ok(blocks + [render(|tools| - 1, tools[|tools| - 1], schema)])
  }

  /** The tool list of the prompt: the blocks separated by a blank line. */
  function ToolsListText(tools: seq<ToolSpec>, detail: ParamDetail): Result<bytes, PromptError> {
    var blocks :- RenderedBlocks(tools, Renderer(detail));
    Ok(Join(blocks, "\n\n"))
  }

  /** A rendered list holds one block per tool, in order. */
  lemma {:induction false} RenderedBlocksInOrder(tools: seq<ToolSpec>, render: BlockRenderer)
    requires RenderedBlocks(tools, render).Ok?
    ensures var blocks := RenderedBlocks(tools, render).value;
      |blocks| == |tools|
      && forall i | 0 <= i < |tools| :: CheckTool(tools[i]).Ok? && blocks[i] == render(i, tools[i], CheckTool(tools[i]).value)
    decreases |tools|
  {
    if |tools| > 0 {
      var n := |tools| - 1;
      var init := tools[..n];
      assert RenderedBlocks(init, render).Ok?;
      RenderedBlocksInOrder(init, render);
      var prev := RenderedBlocks(init, render).value;
      var last := render(n, tools[n], CheckTool(tools[n]).value);
      assert RenderedBlocks(tools, render).value == prev + [last];
      forall i | 0 <= i < |tools|
        ensures CheckTool(tools[i]).Ok? && (prev + [last])[i] == render(i, tools[i], CheckTool(tools[i]).value)
      {
        if i < n {
          assert init[i] == tools[i];
        }
      }
    }
  }

  /** A list that does not render reports the error of the first tool that
      fails its checks. */
  lemma {:induction false} RenderedBlocksFirstError(tools: seq<ToolSpec>, render: BlockRenderer)
    requires RenderedBlocks(tools, render).Err?
    ensures exists i | 0 <= i < |tools| ::
      CheckTool(tools[i]) == Err(RenderedBlocks(tools, render).error)
      && forall j | 0 <= j < i :: CheckTool(tools[j]).Ok?
    decreases |tools|
  {
    var n := |tools| - 1;
    var init := tools[..n];
    assert forall i | 0 <= i < n :: init[i] == tools[i];
    if RenderedBlocks(init, render).Err? {
      RenderedBlocksFirstError(init, render);
      var i :| 0 <= i < n && CheckTool(init[i]) == Err(RenderedBlocks(init, render).error)
        && forall j | 0 <= j < i :: CheckTool(init[j]).Ok?;
      assert CheckTool(tools[i]) == Err(RenderedBlocks(tools, render).error);
    } else {
      RenderedBlocksInOrder(init, render);
      assert CheckTool(tools[n]) == Err(RenderedBlocks(tools, render).error);
    }
  }

  /** The list renders exactly when every tool passes its checks. */
  lemma RenderedBlocksOkIff(tools: seq<ToolSpec>, render: BlockRenderer)
    ensures RenderedBlocks(tools, render).Ok? <==> forall i | 0 <= i < |tools| :: CheckTool(tools[i]).Ok?
  {
    if RenderedBlocks(tools, render).Ok? {
      RenderedBlocksInOrder(tools, render);
    } else {
      RenderedBlocksFirstError(tools, render);
    }
  }

  /** Once a prefix of the tools fails, the whole list fails the same way. */
  lemma {:induction false} RenderedPrefixFails(tools: seq<ToolSpec>, render: BlockRenderer, n: nat)
    requires n <= |tools| && RenderedBlocks(tools[..n], render).Err?
    ensures RenderedBlocks(tools, render) == RenderedBlocks(tools[..n], render)
    decreases |tools|
  {
    if n < |tools| {
      var init := tools[..|tools| - 1];
      assert init[..n] == tools[..n];
      RenderedPrefixFails(init, render, n);
    } else {
      assert tools[..n] == tools;
    }
  }

  /** `format_tools_list`: checks and renders the tools one by one, stopping
      at the first that fails. */
  method FormatToolsList(tools: seq<ToolSpec>, detail: ParamDetail) returns (r: Result<bytes, PromptError>)
    ensures r == ToolsListText(tools, detail)
  {
    var blocks: seq<bytes> := [];
    var i := 0;
    while i < |tools|
      invariant i <= |tools|
      invariant RenderedBlocks(tools[..i], Renderer(detail)) == Ok(blocks)
    {
      assert tools[..i + 1][..i] == tools[..i];
      var schema := CheckTool(tools[i]);
      if schema.Err? {
        assert RenderedBlocks(tools[..i + 1], Renderer(detail)).Err?;
        RenderedPrefixFails(tools, Renderer(detail), i + 1);
        return Err(schema.error);
      }
      blocks := blocks + [ToolBlock(i, tools[i], schema.value, detail)];
      i := i + 1;
    }
    assert tools[..i] == tools;
    return Ok(Join(blocks, "\n\n"));
  }

  // ------------------------------------------------------------------------
  // Prompt

  /** `generate_fc_prompt_uncached`: the rendered tool list put into the
      template, then the tool-choice constraint. */
  function UncachedPrompt(tools: seq<ToolSpec>, choice: ToolChoice, customTemplate: Option<bytes>,
                          setup: PromptSetup, detail: ParamDetail): Result<bytes, PromptError> {
    var toolsList :- ToolsListText(tools, detail);
    Ok(TemplateText(customTemplate, setup, toolsList) + ChoiceSuffix(choice))
  }

  method GenerateUncached(tools: seq<ToolSpec>, choice: ToolChoice, customTemplate: Option<bytes>,
                          setup: PromptSetup, detail: ParamDetail) returns (r: Result<bytes, PromptError>)
    ensures r == UncachedPrompt(tools, choice, customTemplate, setup, detail)
  {
    var toolsList := FormatToolsList(tools, detail);
    if toolsList.Err? {
      return Err(toolsList.error);
    }
    var prompt := TemplateText(customTemplate, setup, toolsList.value);
    return Ok(prompt + ChoiceSuffix(choice));
  }

  /** A prompt is generated exactly when every tool passes its checks, and
      otherwise the error is that of the first tool that fails. */
  lemma UncachedPromptFails(tools: seq<ToolSpec>, choice: ToolChoice, customTemplate: Option<bytes>,
                            setup: PromptSetup, detail: ParamDetail)
    ensures UncachedPrompt(tools, choice, customTemplate, setup, detail).Ok?
            <==> forall i | 0 <= i < |tools| :: CheckTool(tools[i]).Ok?
    ensures UncachedPrompt(tools, choice, customTemplate, setup, detail).Err? ==>
      exists i | 0 <= i < |tools| ::
        CheckTool(tools[i]) == Err(UncachedPrompt(tools, choice, customTemplate, setup, detail).error)
        && forall j | 0 <= j < i :: CheckTool(tools[j]).Ok?
  {
    RenderedBlocksOkIff(tools, Renderer(detail));
    if RenderedBlocks(tools, Renderer(detail)).Err? {
      RenderedBlocksFirstError(tools, Renderer(detail));
    }
  }

  /** The prompt ends with the constraint the tool choice asks for (a
      specific choice names its function last), and `auto` adds nothing. */
  lemma PromptHonoursChoice(tools: seq<ToolSpec>, choice: ToolChoice, customTemplate: Option<bytes>,
                            setup: PromptSetup, detail: ParamDetail)
    requires UncachedPrompt(tools, choice, customTemplate, setup, detail).Ok?
    ensures var p := UncachedPrompt(tools, choice, customTemplate, setup, detail).value;
      var body := TemplateText(customTemplate, setup, ToolsListText(tools, detail).value);
      (ChoiceConstraint(choice).None? <==> p == body)
      && (ChoiceConstraint(choice).Some? ==> EndsWith(p, ChoiceConstraint(choice).value))
      && (choice.Specific? ==> EndsWith(p, choice.name))
  {
    var body := TemplateText(customTemplate, setup, ToolsListText(tools, detail).value);
    assert UncachedPrompt(tools, choice, customTemplate, setup, detail).value == body + ChoiceSuffix(choice);
    SuffixHonoursChoice(body, choice);
  }

  /** What the tool-choice suffix adds to any prompt body. */
  lemma SuffixHonoursChoice(body: bytes, choice: ToolChoice)
    ensures var p := body + ChoiceSuffix(choice);
      (ChoiceConstraint(choice).None? <==> p == body)
      && (ChoiceConstraint(choice).Some? ==> EndsWith(p, ChoiceConstraint(choice).value))
      && (choice.Specific? ==> EndsWith(p, choice.name))
  {
    var sep: bytes := "\n\n";
    match ChoiceConstraint(choice)
    case None =>
    case Some(c) =>
      assert body + ChoiceSuffix(choice) == (body + sep) + c;
      AppendEndsWith(body + sep, c);
      if choice.Specific? {
        var lead: bytes := "You MUST call the function: ";
        assert c == lead + choice.name;
        assert (body + sep) + c == (body + sep + lead) + choice.name;
        AppendEndsWith(body + sep + lead, choice.name);
      }
  }

  /** A concatenation ends with its second part. */
  lemma AppendEndsWith(a: bytes, c: bytes)
    ensures EndsWith(a + c, c)
  {
    assert (a + c)[|a|..] == c;
  }

  /** The bytes of a match, one by one. */
  lemma MatchBytes(s: bytes, p: bytes, k: nat)
    requires MatchAt(s, p, k)
    ensures forall j | k <= j < k + |p| :: s[j] == p[j - k]
  {
    forall j | k <= j < k + |p| ensures s[j] == p[j - k] {
      assert s[k..k + |p|][j - k] == s[j];
    }
  }

  /** An occurrence of `q` and a match of `pat` cannot overlap when neither
      contains the other's first byte. */
  lemma NoOverlap(s: bytes, pat: bytes, q: bytes, k: nat)
    requires |pat| > 0 && |q| > 0 && MatchAt(s, q, k)
    requires !HasByte(q, pat[0]) && !HasByte(pat, q[0])
    ensures forall m: nat | MatchAt(s, pat, m) :: m + |pat| <= k || k + |q| <= m
  {
    MatchBytes(s, q, k);
    assert s[k] == q[0];
    forall m: nat | MatchAt(s, pat, m) ensures m + |pat| <= k || k + |q| <= m {
      MatchBytes(s, pat, m);
      assert s[m] == pat[0];
    }
  }

  /** A tool-list placeholder never overlaps a trigger placeholder. */
  lemma SlotsApart(s: bytes, k: nat)
    requires MatchAt(s, TOOLS_LIST_SLOT, k)
    ensures forall m: nat | MatchAt(s, TRIGGER_SLOT, m) :: m + |TRIGGER_SLOT| <= k || k + |TOOLS_LIST_SLOT| <= m
  {
    assert forall i | 1 <= i < 16 :: TRIGGER_SLOT[i] != '{';
    assert forall i | 1 <= i < 12 :: TOOLS_LIST_SLOT[i] != '{';
    MatchBytes(s, TOOLS_LIST_SLOT, k);
    assert s[k] == '{' && s[k + 2] == 'o';
    forall m: nat | MatchAt(s, TRIGGER_SLOT, m) ensures m + 16 <= k || k + 12 <= m {
      MatchBytes(s, TRIGGER_SLOT, m);
      assert s[m] == '{';
    }
  }

  /** No match starts at a byte other than the pattern's first. */
  lemma NoMatchAtOtherByte(s: bytes, p: bytes, k: nat)
    requires |p| > 0 && k < |s| && s[k] != p[0]
    ensures !MatchAt(s, p, k)
  {
    if k + |p| <= |s| {
      assert s[k..k + |p|][0] == s[k];
    }
  }

  /** `q` occurs in `a + q + b` right after `a`. */
  lemma MatchAfter(a: bytes, q: bytes, b: bytes)
    ensures MatchAt(a + q + b, q, |a|)
  {
    assert (a + q + b)[|a|..|a| + |q|] == q;
  }

  /** Text that contains `q` still does with anything appended. */
  lemma ContainsBeforeSuffix(a: bytes, b: bytes, q: bytes)
    requires Contains(a, q)
    ensures Contains(a + b, q)
  {
    ContainsIff(a, q);
    var k: nat :| MatchAt(a, q, k);
    assert (a + b)[k..k + |q|] == a[k..k + |q|];
    assert MatchAt(a + b, q, k);
    ContainsIff(a + b, q);
  }

  /** The default template's head holds no placeholder, so the tool list
      lands right after it. */
  lemma DefaultPromptShape(setup: PromptSetup, toolsList: bytes)
    ensures TemplateText(None, setup, toolsList)
            == DEFAULT_HEAD + toolsList + ReplaceAll(setup.defaultRest, TOOLS_LIST_SLOT, toolsList)
  {
    var rest := setup.defaultRest;
    var t := DefaultTemplate(setup);
    assert t == DEFAULT_HEAD + (TOOLS_LIST_SLOT + rest);
    HeadHasNoBrace();
    forall k: nat | k < |DEFAULT_HEAD| ensures !MatchAt(t, TOOLS_LIST_SLOT, k) {
      assert t[k] == DEFAULT_HEAD[k];
      NoMatchAtOtherByte(t, TOOLS_LIST_SLOT, k);
    }
    ReplaceAllPrefix(DEFAULT_HEAD, TOOLS_LIST_SLOT + rest, t, TOOLS_LIST_SLOT, toolsList);
    ReplaceAllHead(TOOLS_LIST_SLOT, rest, toolsList);
  }

  /** The prompt body holds the tool list whenever its template has the
      placeholder (the default one always does). */
  lemma PromptContainsToolsList(customTemplate: Option<bytes>, setup: PromptSetup, toolsList: bytes)
    requires customTemplate.Some? ==> Contains(customTemplate.value, TOOLS_LIST_SLOT)
    ensures Contains(TemplateText(customTemplate, setup, toolsList), toolsList)
  {
    var text := TemplateText(customTemplate, setup, toolsList);
    if customTemplate.Some? {
      var tmpl := customTemplate.value;
      ContainsIff(tmpl, TOOLS_LIST_SLOT);
      var k: nat :| MatchAt(tmpl, TOOLS_LIST_SLOT, k);
      SlotsApart(tmpl, k);
      ReplaceAllKeeps(tmpl, TRIGGER_SLOT, setup.trigger, TOOLS_LIST_SLOT, k);
      ReplaceAllInsertsReplacement(ReplaceAll(tmpl, TRIGGER_SLOT, setup.trigger), TOOLS_LIST_SLOT, toolsList);
    } else {
      DefaultPromptShape(setup, toolsList);
      var tail := ReplaceAll(setup.defaultRest, TOOLS_LIST_SLOT, toolsList);
      MatchAfter(DEFAULT_HEAD, toolsList, tail);
      ContainsIff(text, toolsList);
    }
  }

  /** The prompt body shows the trigger signal whenever its template asks
      for it (the default one always does). */
  lemma PromptContainsTrigger(customTemplate: Option<bytes>, setup: PromptSetup, toolsList: bytes)
    requires ValidSetup(setup)
    requires customTemplate.Some? ==> Contains(customTemplate.value, TRIGGER_SLOT)
    ensures Contains(TemplateText(customTemplate, setup, toolsList), setup.trigger)
  {
    var trigger := setup.trigger;
    TriggerSignalBytes(trigger);
    assert !HasByte(TOOLS_LIST_SLOT, '<');
    var t := if customTemplate.Some? then ReplaceAll(customTemplate.value, TRIGGER_SLOT, trigger) else setup.defaultRest;
    if customTemplate.Some? {
      ReplaceAllInsertsReplacement(customTemplate.value, TRIGGER_SLOT, trigger);
    }
    ContainsIff(t, trigger);
    var k: nat :| MatchAt(t, trigger, k);
    NoOverlap(t, TOOLS_LIST_SLOT, trigger, k);
    ReplaceAllKeeps(t, TOOLS_LIST_SLOT, toolsList, trigger, k);
    if customTemplate.None? {
      DefaultPromptShape(setup, toolsList);
      ContainsAfterPrefix(DEFAULT_HEAD + toolsList, ReplaceAll(t, TOOLS_LIST_SLOT, toolsList), trigger);
    }
  }

  /** The trigger is put into a custom template before the tool list is, so
      a `{trigger_signal}` written inside a tool's description reaches the
      prompt as it stands. */
  lemma TriggerSubstitutedFirst(tmpl: bytes, setup: PromptSetup, toolsList: bytes)
    requires Contains(tmpl, TOOLS_LIST_SLOT) && Contains(toolsList, TRIGGER_SLOT)
    ensures Contains(TemplateText(Some(tmpl), setup, toolsList), TRIGGER_SLOT)
  {
    PromptContainsToolsList(Some(tmpl), setup, toolsList);
    ContainsTrans(TemplateText(Some(tmpl), setup, toolsList), toolsList, TRIGGER_SLOT);
  }

  /** A tool's block opens with the tag that names it. */
  lemma BlockNamesTool(i: nat, tool: ToolSpec, schema: ToolSchema, detail: ParamDetail)
    ensures Contains(ToolBlock(i, tool, schema, detail), ToolTag(tool.name))
  {
    var block := ToolBlock(i, tool, schema, detail);
    var head := Util.Decimal(i + 1) + ". ";
    var body := block[|head| + |ToolTag(tool.name)|..];
    assert block == head + ToolTag(tool.name) + body;
    MatchAfter(head, ToolTag(tool.name), body);
    ContainsIff(block, ToolTag(tool.name));
  }

  /** Every generated prompt names every tool, whatever the tool choice,
      provided a custom template has the tool-list placeholder. */
  lemma PromptNamesEveryTool(tools: seq<ToolSpec>, choice: ToolChoice, customTemplate: Option<bytes>,
                             setup: PromptSetup, detail: ParamDetail, i: nat)
    requires UncachedPrompt(tools, choice, customTemplate, setup, detail).Ok?
    requires customTemplate.Some? ==> Contains(customTemplate.value, TOOLS_LIST_SLOT)
    requires i < |tools|
    ensures Contains(UncachedPrompt(tools, choice, customTemplate, setup, detail).value, ToolTag(tools[i].name))
  {
    var blocks := RenderedBlocks(tools, Renderer(detail)).value;
    var list := Join(blocks, "\n\n");
    var text := TemplateText(customTemplate, setup, list);
    var tag := ToolTag(tools[i].name);
    RenderedBlocksInOrder(tools, Renderer(detail));
    BlockNamesTool(i, tools[i], CheckTool(tools[i]).value, detail);
    JoinContainsPart(blocks, "\n\n", i);
    ContainsTrans(list, blocks[i], tag);
    PromptContainsToolsList(customTemplate, setup, list);
    ContainsTrans(text, list, tag);
    ContainsBeforeSuffix(text, ChoiceSuffix(choice), tag);
  }

  // ------------------------------------------------------------------------
  // Prompt cache

  /** What a cached prompt is looked up by. */
  datatype CacheKey = CacheKey(tools: seq<ToolSpec>, toolChoice: ToolChoice, customTemplate: Option<bytes>)

  /** The prompt and its OpenAI system message, serialised once. */
  datatype PromptArtifacts = PromptArtifacts(prompt: bytes, systemMessageJson: bytes)

  datatype CacheEntry = CacheEntry(key: CacheKey, artifacts: PromptArtifacts)

  const PROMPT_CACHE_CAPACITY: nat := 64

  /** The artifacts of the newest entry for `key` (`rfind`). */
  function Newest(entries: seq<CacheEntry>, key: CacheKey): Option<PromptArtifacts>
    decreases |entries|
  {
    if |entries| == 0 then None
    else if entries[|entries| - 1].key == key then Some(entries[|entries| - 1].artifacts)
    else Newest(entries[..|entries| - 1], key)
  }

  /** What is found is the artifacts of an entry for `key` with no newer
      entry for it, and nothing is found only when there is no entry. */
  lemma {:induction false} NewestMeaning(entries: seq<CacheEntry>, key: CacheKey)
    ensures Newest(entries, key).None? <==> forall i | 0 <= i < |entries| :: entries[i].key != key
    ensures Newest(entries, key).Some? ==>
      exists i | 0 <= i < |entries| :: entries[i] == CacheEntry(key, Newest(entries, key).value)
        && forall j | i < j < |entries| :: entries[j].key != key
    decreases |entries|
  {
    if |entries| > 0 {
      var n := |entries| - 1;
      var init := entries[..n];
      NewestMeaning(init, key);
      assert forall i | 0 <= i < n :: init[i] == entries[i];
      if entries[n].key != key && Newest(init, key).Some? {
        var i :| 0 <= i < n && init[i] == CacheEntry(key, Newest(init, key).value)
          && forall j | i < j < n :: init[j].key != key;
        assert entries[i] == CacheEntry(key, Newest(entries, key).value);
      }
    }
  }

  /** The position of the oldest entry for `key` (`position`). */
  function Oldest(entries: seq<CacheEntry>, key: CacheKey): (r: Option<nat>)
    ensures r.Some? ==> r.value < |entries| && entries[r.value].key == key
    ensures r.Some? ==> forall j | 0 <= j < r.value :: entries[j].key != key
    ensures r.None? ==> forall j | 0 <= j < |entries| :: entries[j].key != key
    decreases |entries|
  {
    if |entries| == 0 then None
    else if entries[0].key == key then Some(0)
    else
      match Oldest(entries[1..], key)
      case None => None
      case Some(p) => Some(p + 1)
  }

  /** No two entries share a key. */
  predicate UniqueKeys(entries: seq<CacheEntry>) {
    forall i, j | 0 <= i < j < |entries| :: entries[i].key != entries[j].key
  }

  /** The entries after `insert`: an entry with the same key is removed, the
      oldest entry is dropped when the cache is still full, and the new
      entry goes last. */
  function Inserted(entries: seq<CacheEntry>, key: CacheKey, artifacts: PromptArtifacts): seq<CacheEntry> {
    var kept := match Oldest(entries, key)
      case None => entries
      case Some(p) => entries[..p] + entries[p + 1..];
    var room := if |kept| >= PROMPT_CACHE_CAPACITY then kept[1..] else kept;
    room + [CacheEntry(key, artifacts)]
  }

  /** With unique keys, the entry for a key is the one found. */
  lemma NewestOfUnique(entries: seq<CacheEntry>, i: nat)
    requires UniqueKeys(entries) && i < |entries|
    ensures Newest(entries, entries[i].key) == Some(entries[i].artifacts)
  {
    var key := entries[i].key;
    NewestMeaning(entries, key);
    var k :| 0 <= k < |entries| && entries[k] == CacheEntry(key, Newest(entries, key).value)
      && forall j | k < j < |entries| :: entries[j].key != key;
    assert k == i;
  }

  /** The entries left after removing the one at `p`, as positions of the
      old sequence. */
  lemma RemovedAt(entries: seq<CacheEntry>, p: nat)
    requires p < |entries|
    ensures var kept := entries[..p] + entries[p + 1..];
      |kept| == |entries| - 1
      && (forall j | 0 <= j < p :: kept[j] == entries[j])
      && (forall j | p <= j < |kept| :: kept[j] == entries[j + 1])
  {
  }

  /** The cache after an insert keeps only old entries, in their order,
      and ends with the new one. */
  lemma InsertedFromOld(entries: seq<CacheEntry>, key: CacheKey, artifacts: PromptArtifacts)
    ensures var r := Inserted(entries, key, artifacts);
      |r| > 0 && r[|r| - 1] == CacheEntry(key, artifacts)
      && forall j | 0 <= j < |r| - 1 :: r[j] in entries
  {
    var pos := Oldest(entries, key);
    var kept := if pos.None? then entries else entries[..pos.value] + entries[pos.value + 1..];
    if pos.Some? {
      RemovedAt(entries, pos.value);
    }
    assert forall j | 0 <= j < |kept| :: kept[j] in entries;
  }

  /** An insert keeps the cache within its capacity and its keys unique. */
  lemma InsertedStaysValid(entries: seq<CacheEntry>, key: CacheKey, artifacts: PromptArtifacts)
    requires |entries| <= PROMPT_CACHE_CAPACITY && UniqueKeys(entries)
    ensures |Inserted(entries, key, artifacts)| <= PROMPT_CACHE_CAPACITY
    ensures UniqueKeys(Inserted(entries, key, artifacts))
  {
    var pos := Oldest(entries, key);
    var kept := if pos.None? then entries else entries[..pos.value] + entries[pos.value + 1..];
    if pos.Some? {
      RemovedUnique(entries, key, pos.value);
    }
    var room := if |kept| >= PROMPT_CACHE_CAPACITY then kept[1..] else kept;
    if |kept| >= PROMPT_CACHE_CAPACITY {
      TailUnique(kept, key);
    }
    AppendedUnique(room, CacheEntry(key, artifacts));
  }

  /** Removing the entry for `key` leaves unique keys, none of them `key`. */
  lemma RemovedUnique(entries: seq<CacheEntry>, key: CacheKey, p: nat)
    requires UniqueKeys(entries) && p < |entries| && entries[p].key == key
    ensures var kept := entries[..p] + entries[p + 1..];
      UniqueKeys(kept) && forall j | 0 <= j < |kept| :: kept[j].key != key
  {
    var kept := entries[..p] + entries[p + 1..];
    RemovedAt(entries, p);
    forall i, j | 0 <= i < j < |kept| ensures kept[i].key != kept[j].key {
      var i' := if i < p then i else i + 1;
      var j' := if j < p then j else j + 1;
      assert kept[i] == entries[i'] && kept[j] == entries[j'];
    }
    forall j | 0 <= j < |kept| ensures kept[j].key != key {
      var j' := if j < p then j else j + 1;
      assert kept[j] == entries[j'] && j' != p;
    }
  }

  /** Dropping the oldest entry keeps the keys unique and without `key`. */
  lemma TailUnique(kept: seq<CacheEntry>, key: CacheKey)
    requires |kept| > 0 && UniqueKeys(kept) && forall j | 0 <= j < |kept| :: kept[j].key != key
    ensures UniqueKeys(kept[1..]) && forall j | 0 <= j < |kept| - 1 :: kept[1..][j].key != key
  {
    forall i, j | 0 <= i < j < |kept| - 1 ensures kept[1..][i].key != kept[1..][j].key {
      assert kept[1..][i] == kept[i + 1] && kept[1..][j] == kept[j + 1];
    }
  }

  /** Entries with unique keys, none of them the new entry's, stay unique
      with the new entry after them. */
  lemma AppendedUnique(room: seq<CacheEntry>, e: CacheEntry)
    requires UniqueKeys(room) && forall j | 0 <= j < |room| :: room[j].key != e.key
    ensures UniqueKeys(room + [e])
  {
    var r := room + [e];
    forall i, j | 0 <= i < j < |r| ensures r[i].key != r[j].key {
      assert r[i] == room[i];
      if j < |room| {
        assert r[j] == room[j];
      }
    }
  }

  /** After an insert the key finds the new artifacts. */
  lemma GetAfterInsert(entries: seq<CacheEntry>, key: CacheKey, artifacts: PromptArtifacts)
    ensures Newest(Inserted(entries, key, artifacts), key) == Some(artifacts)
  {
  }

  /** Where an old entry with another key ends up after an insert, when it
      is not the one evicted to make room. */
  lemma KeptPosition(entries: seq<CacheEntry>, key: CacheKey, artifacts: PromptArtifacts, i: nat)
    returns (ir: nat)
    requires i < |entries| && entries[i].key != key && |entries| <= PROMPT_CACHE_CAPACITY
    requires Oldest(entries, key).None? && |entries| == PROMPT_CACHE_CAPACITY ==> i != 0
    ensures ir < |Inserted(entries, key, artifacts)| && Inserted(entries, key, artifacts)[ir] == entries[i]
  {
    var pos := Oldest(entries, key);
    var kept := if pos.None? then entries else entries[..pos.value] + entries[pos.value + 1..];
    var ik: nat := i;
    if pos.Some? {
      RemovedAt(entries, pos.value);
      ik := if i < pos.value then i else i - 1;
    }
    assert kept[ik] == entries[i];
    var room := if |kept| >= PROMPT_CACHE_CAPACITY then kept[1..] else kept;
    ir := if |kept| >= PROMPT_CACHE_CAPACITY then ik - 1 else ik;
    assert room[ir] == entries[i];
  }

  /** An insert changes what no other key finds, except for the oldest
      entry's key when a full cache without the key has to make room. */
  lemma InsertLeavesOthers(entries: seq<CacheEntry>, key: CacheKey, artifacts: PromptArtifacts, other: CacheKey)
    requires |entries| <= PROMPT_CACHE_CAPACITY && UniqueKeys(entries) && other != key
    requires Oldest(entries, key).None? && |entries| == PROMPT_CACHE_CAPACITY ==> entries[0].key != other
    ensures Newest(Inserted(entries, key, artifacts), other) == Newest(entries, other)
  {
    var r := Inserted(entries, key, artifacts);
    InsertedFromOld(entries, key, artifacts);
    InsertedStaysValid(entries, key, artifacts);
    NewestMeaning(entries, other);
    NewestMeaning(r, other);
    if Newest(entries, other).Some? {
      var i :| 0 <= i < |entries| && entries[i] == CacheEntry(other, Newest(entries, other).value)
        && forall j | i < j < |entries| :: entries[j].key != other;
      var ir := KeptPosition(entries, key, artifacts, i);
      NewestOfUnique(r, ir);
    } else {
      forall j | 0 <= j < |r| ensures r[j].key != other {
        if j < |r| - 1 {
          var i :| 0 <= i < |entries| && entries[i] == r[j];
        }
      }
    }
  }

  /** A full cache without the key drops its oldest entry to make room, and
      that entry's key then finds nothing. */
  lemma InsertAtCapacityEvictsOldest(entries: seq<CacheEntry>, key: CacheKey, artifacts: PromptArtifacts)
    requires |entries| == PROMPT_CACHE_CAPACITY && forall i | 0 <= i < |entries| :: entries[i].key != key
    ensures Inserted(entries, key, artifacts) == entries[1..] + [CacheEntry(key, artifacts)]
    ensures UniqueKeys(entries) ==> Newest(Inserted(entries, key, artifacts), entries[0].key) == None
  {
    var r := Inserted(entries, key, artifacts);
    if UniqueKeys(entries) {
      NewestMeaning(r, entries[0].key);
      assert forall j | 0 <= j < |r| - 1 :: r[j] == entries[j + 1];
    }
  }

  /** Inserting a key the cache holds moves it to the back with its new
      artifacts, and never evicts anything. */
  lemma ReinsertMovesToBack(entries: seq<CacheEntry>, key: CacheKey, artifacts: PromptArtifacts, p: nat)
    requires |entries| <= PROMPT_CACHE_CAPACITY && p < |entries| && entries[p].key == key
    requires forall j | 0 <= j < p :: entries[j].key != key
    ensures Inserted(entries, key, artifacts) == entries[..p] + entries[p + 1..] + [CacheEntry(key, artifacts)]
  {
    assert Oldest(entries, key) == Some(p);
  }

  /** The artifacts generated for `key`: the uncached prompt and its system
      message, `encode` standing for the JSON serialisation of
      `{"role":"system","content":prompt}`. */
  function Generated(key: CacheKey, setup: PromptSetup, detail: ParamDetail, encode: bytes -> bytes)
    : (r: Result<PromptArtifacts, PromptError>)
    ensures r.Ok? <==> UncachedPrompt(key.tools, key.toolChoice, key.customTemplate, setup, detail).Ok?
    ensures r.Ok? ==> r.value.systemMessageJson == encode(r.value.prompt)
  {
    var prompt :- UncachedPrompt(key.tools, key.toolChoice, key.customTemplate, setup, detail);
    Ok(PromptArtifacts(prompt, encode(prompt)))
  }

  /** The process-wide prompt cache: at most 64 entries, newest last. */
  class PromptCache {
    var entries: seq<CacheEntry>

    ghost predicate Valid()
      reads this
    {
      |entries| <= PROMPT_CACHE_CAPACITY && UniqueKeys(entries)
    }

    /** Every cached entry holds what generation gives for its key. */
    ghost predicate Faithful(setup: PromptSetup, detail: ParamDetail, encode: bytes -> bytes)
      reads this
    {
      forall i | 0 <= i < |entries| :: Generated(entries[i].key, setup, detail, encode) == Ok(entries[i].artifacts)
    }

    constructor()
      ensures entries == [] && Valid()
    {
      entries := [];
    }

    /** The newest cached artifacts for `key`. */
    function Get(key: CacheKey): (r: Option<PromptArtifacts>)
      reads this
      ensures r.None? <==> forall i | 0 <= i < |entries| :: entries[i].key != key
      ensures r.Some? ==> exists i | 0 <= i < |entries| :: entries[i] == CacheEntry(key, r.value)
    {
      NewestMeaning(entries, key);
      Newest(entries, key)
    }

    method Insert(key: CacheKey, artifacts: PromptArtifacts)
      modifies this
      ensures entries == Inserted(old(entries), key, artifacts)
      ensures old(Valid()) ==> Valid()
      ensures Get(key) == Some(artifacts)
    {
      var pos := Oldest(entries, key);
      if pos.Some? {
        entries := entries[..pos.value] + entries[pos.value + 1..];
      }
      if |entries| >= PROMPT_CACHE_CAPACITY {
        entries := entries[1..];
      }
      entries := entries + [CacheEntry(key, artifacts)];
      if old(Valid()) {
        InsertedStaysValid(old(entries), key, artifacts);
      }
      GetAfterInsert(old(entries), key, artifacts);
    }

    /** A hit returns the cached artifacts untouched; a miss generates them
        and caches them on success; an error leaves the cache as it was. A
        cache that only ever held generated artifacts stays so, and then
        what is returned is exactly what generation gives. */
    method GenerateArtifacts(key: CacheKey, setup: PromptSetup, detail: ParamDetail, encode: bytes -> bytes)
      returns (r: Result<PromptArtifacts, PromptError>)
      modifies this
      ensures old(Get(key)).Some? ==> r == Ok(old(Get(key)).value) && entries == old(entries)
      ensures old(Get(key)).None? ==> r == Generated(key, setup, detail, encode)
      ensures old(Get(key)).None? && r.Ok? ==> entries == Inserted(old(entries), key, r.value)
      ensures r.Err? ==> entries == old(entries)
      ensures r.Ok? ==> Get(key) == Some(r.value)
      ensures old(Valid()) ==> Valid()
      ensures old(Faithful(setup, detail, encode)) ==>
        Faithful(setup, detail, encode) && r == Generated(key, setup, detail, encode)
    {
      var cached := Get(key);
      if cached.Some? {
        r := Ok(cached.value);
        return;
      }
      var prompt := GenerateUncached(key.tools, key.toolChoice, key.customTemplate, setup, detail);
      if prompt.Err? {
        r := Err(prompt.error);
        return;
      }
      var artifacts := PromptArtifacts(prompt.value, encode(prompt.value));
      ghost var before := entries;
      Insert(key, artifacts);
      r := Ok(artifacts);
      InsertedFromOld(before, key, artifacts);
    }

    /** The prompt text alone; with a faithful cache it is the uncached
        prompt. */
    method GeneratePrompt(key: CacheKey, setup: PromptSetup, detail: ParamDetail, encode: bytes -> bytes)
      returns (r: Result<bytes, PromptError>)
      modifies this
      ensures old(Valid()) ==> Valid()
      ensures old(Faithful(setup, detail, encode)) ==>
        Faithful(setup, detail, encode)
        && r == UncachedPrompt(key.tools, key.toolChoice, key.customTemplate, setup, detail)
    {
      var artifacts := GenerateArtifacts(key, setup, detail, encode);
      if artifacts.Err? {
        r := Err(artifacts.error);
      } else {
        r := Ok(artifacts.value.prompt);
      }
    }
  }
}
