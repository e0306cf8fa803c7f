// The interactive loop of the assistant (`main_cycle` with its menus): each
// turn is an exit, a change of task, a follow-up on the previous answer or
// a new question. A new question is answered from the document structure
// (structural questions) or from the retrieved chunks and section summaries.
// The language models, the router, the vector search and the user's menu
// input are parameters.
module Session {
  import opened Wrappers
  import opened Text
  import opened Json
  import opened WordReplace
  import opened OrderedMaps
  import opened Structure
  import Ordinals
  import Resolver
  import Retriever
  import StableSort

  // ---------------------------------------------------------------------
  // Menus

  /** The position of the first answer that is a number in 1..n (answers
      that are not numbers are None). */
  function FirstValidChoice(inputs: seq<Option<int>>, n: nat): (r: Option<nat>)
    ensures r.Some? ==> r.value < |inputs| && inputs[r.value].Some? && 1 <= inputs[r.value].value <= n
    ensures r.Some? ==> forall k :: 0 <= k < r.value ==> !(inputs[k].Some? && 1 <= inputs[k].value <= n)
    ensures r.None? ==> forall k :: 0 <= k < |inputs| ==> !(inputs[k].Some? && 1 <= inputs[k].value <= n)
  {
    if inputs == [] then None
    else if inputs[0].Some? && 1 <= inputs[0].value <= n then Some(0)
    else match FirstValidChoice(inputs[1..], n)
      case Some(k) => Some(k + 1)
      case None => None
  }

  /** The key picked by the first valid answer; None while no answer given
      so far is valid (the menu then keeps asking). */
  function MenuChoice(keys: seq<string>, inputs: seq<Option<int>>): (r: Option<string>)
    ensures r.Some? ==> r.value in keys
  {
    match FirstValidChoice(inputs, |keys|)
    case Some(k) => Some(keys[inputs[k].value - 1])
    case None => None
  }

  /** The menu loop of `select_task` and `select_model`: numbers outside
      1..n and non-numbers are rejected and asked again. */
  method AskMenu(keys: seq<string>, inputs: seq<Option<int>>) returns (choice: Option<string>)
    ensures choice == MenuChoice(keys, inputs)
  {
    var i := 0;
    while i < |inputs|
      invariant 0 <= i <= |inputs|
      invariant forall k :: 0 <= k < i ==> !(inputs[k].Some? && 1 <= inputs[k].value <= |keys|)
    {
      if inputs[i].Some? && 1 <= inputs[i].value <= |keys| {
        FirstValidChoiceIs(inputs, |keys|, i);
        return Some(keys[inputs[i].value - 1]);
      }
      i := i + 1;
    }
    return None;
  }

  lemma {:induction false} FirstValidChoiceIs(inputs: seq<Option<int>>, n: nat, i: nat)
    requires i < |inputs| && inputs[i].Some? && 1 <= inputs[i].value <= n
    requires forall k :: 0 <= k < i ==> !(inputs[k].Some? && 1 <= inputs[k].value <= n)
    ensures FirstValidChoice(inputs, n) == Some(i)
  {
    if i > 0 {
      FirstValidChoiceIs(inputs[1..], n, i - 1);
    }
  }

  /** `select_task`: no prompt means no task; otherwise the menu over the
      prompt names, in the order they were loaded. */
  method SelectTask(prompts: Dict<string, string>, inputs: seq<Option<int>>) returns (choice: Option<string>)
    requires prompts.Valid()
    ensures prompts.keys == [] ==> choice.None?
    ensures prompts.keys != [] ==> choice == MenuChoice(prompts.keys, inputs)
    ensures choice.Some? ==> choice.value in prompts.values
  {
    if prompts.keys == [] {
      return None;
    }
    choice := AskMenu(prompts.keys, inputs);
  }

  /** The configured models, in their order: the router and three generators. */
  const ModelKeys: seq<string> := ["router", "default_generator", "gpt", "pro"]

  /** The generator menu: the model keys except the router, in order. */
  function GeneratorKeys(keys: seq<string>): (r: seq<string>)
    ensures "router" !in r
    ensures forall k :: k in r <==> k in keys && k != "router"
  {
    if keys == [] then []
    else (if keys[0] != "router" then [keys[0]] else []) + GeneratorKeys(keys[1..])
  }

  /** `select_model` */
  method SelectModel(inputs: seq<Option<int>>) returns (choice: Option<string>)
    ensures choice == MenuChoice(GeneratorKeys(ModelKeys), inputs)
    ensures choice.Some? ==> choice.value in ModelKeys && choice.value != "router"
  {
    choice := AskMenu(GeneratorKeys(ModelKeys), inputs);
  }

  // ---------------------------------------------------------------------
  // Reading a turn

  /** The model aliases, tried in this order. */
  const Aliases: seq<(string, string)> := [("@flash", "default_generator"), ("@gpt", "gpt"), ("@pro", "pro")]

  /** The first alias (in the fixed order) occurring in the text. */
  function FirstAlias(lower: string): Option<(string, string)> {
    if Contains(lower, "@flash") then Some(Aliases[0])
    else if Contains(lower, "@gpt") then Some(Aliases[1])
    else if Contains(lower, "@pro") then Some(Aliases[2])
    else None
  }

  /** The alias found occurs in the text and no alias before it in the
      table does; there is none exactly when no alias occurs. */
  lemma FirstAliasSpec(lower: string)
    ensures var r := FirstAlias(lower);
      && (r.Some? ==> r.value in Aliases && Contains(lower, r.value.0))
      && (r.Some? ==> forall i :: 0 <= i < |Aliases| && Aliases[i] == r.value ==>
            forall j :: 0 <= j < i ==> !Contains(lower, Aliases[j].0))
      && (r.None? <==> forall i :: 0 <= i < |Aliases| ==> !Contains(lower, Aliases[i].0))
  {
  }

  /** The input asks for a follow-up: it has the whole word "sintetico" or
      "dettagliato". */
  predicate IsFollowUp(lower: string) {
    !NoRun(lower, {"sintetico", "dettagliato"}, false)
  }

  /** The style of a follow-up: "sintetico" if that text occurs anywhere. */
  function Style(lower: string): string {
    if Contains(lower, "sintetico") then "sintetico" else "dettagliato"
  }

  // ---------------------------------------------------------------------
  // Context assembly for a retrieved answer

  const Separator := "\n\n---\n\n"

  /** The title of the field, if it holds a non-empty string. */
  function TitleAt(payload: Record, field: string): seq<string> {
    match TruthyStr(payload, field)
    case Some(t) => [t]
    case None => []
  }

  /** A hit's section titles, deepest level first. */
  function LevelTitles(h: Retriever.Hit): seq<string> {
    TitleAt(h.payload, "livello_3_title") + TitleAt(h.payload, "livello_2_title") + TitleAt(h.payload, "livello_1_title")
  }

  /** The titles of all hits, hit by hit. */
  function HitTitles(hits: seq<Retriever.Hit>): seq<string> {
    Flatten(seq(|hits|, i requires 0 <= i < |hits| => LevelTitles(hits[i])))
  }

  /** `unique_titles_in_order` */
  function SectionTitles(hits: seq<Retriever.Hit>): seq<string> {
    Dedup(HitTitles(hits))
  }

  function SummaryBlock(title: string, summary: Value): string {
    "**Contesto dalla Sezione (" + title + "):**\n" + PyStr(summary)
  }

  /** The summary blocks of the titles that have a non-empty summary, in order. */
  function SummaryBlocks(titles: seq<string>, summaries: map<string, Value>): seq<string> {
    if titles == [] then []
    else
      var t := titles[0];
      (if t in summaries && Truthy(summaries[t]) then [SummaryBlock(t, summaries[t])] else [])
      + SummaryBlocks(titles[1..], summaries)
  }

  /** The excerpt of one hit. */
  function ChunkText(h: Retriever.Hit): string {
    "Fonte: [" + GetStr(h.payload, "document_title", "N/D") + "] Art. " + PyStr(GetOr(h.payload, "articolo", Null))
    + ", Comma " + PyStr(GetOr(h.payload, "comma", Null)) + ".\nTesto: " + GetStr(h.payload, "testo_originale_comma", "")
  }

  function ChunkTexts(hits: seq<Retriever.Hit>): seq<string> {
    seq(|hits|, i requires 0 <= i < |hits| => ChunkText(hits[i]))
  }

  const ExcerptsHeading := "**Estratti Rilevanti (Ordinati per Pertinenza):**\n"

  /** `final_context_for_llm` */
  function ContextFor(hits: seq<Retriever.Hit>, summaries: map<string, Value>): string {
    var blocks := SummaryBlocks(SectionTitles(hits), summaries);
    Join(Separator, blocks) + (if blocks != [] then Separator else "") + ExcerptsHeading + Join(Separator, ChunkTexts(hits))
  }

  /** Adds the titles not seen yet, in order, keeping `seen` the set of the list. */
  method AddTitles(titles: seq<string>, seen: set<string>, levels: seq<string>) returns (titles': seq<string>, seen': set<string>)
    requires seen == set t | t in titles
    ensures forall before :: titles == Dedup(before) ==> titles' == Dedup(before + levels)
    ensures seen' == set t | t in titles'
  {
    titles', seen' := titles, seen;
    var j := 0;
    forall before: seq<string> ensures before + levels[..0] == before {
      assert levels[..0] == [];
    }
    while j < |levels|
      invariant 0 <= j <= |levels|
      invariant forall before :: titles == Dedup(before) ==> titles' == Dedup(before + levels[..j])
      invariant seen' == set t | t in titles'
    {
      var t := levels[j];
      forall before | titles == Dedup(before)
        ensures before + levels[..j + 1] == (before + levels[..j]) + [t]
      {
      }
      if t !in seen' {
        titles' := titles' + [t];
        seen' := seen' + {t};
      }
      j := j + 1;
    }
    assert levels[..j] == levels;
  }

  /** `unique_titles_in_order`, filled hit by hit with a `seen` set. */
  method CollectTitles(hits: seq<Retriever.Hit>) returns (titles: seq<string>)
    ensures titles == SectionTitles(hits)
  {
    titles := [];
    var seen: set<string> := {};
    var i := 0;
    while i < |hits|
      invariant 0 <= i <= |hits|
      invariant titles == SectionTitles(hits[..i])
      invariant seen == set t | t in titles
    {
      titles, seen := AddTitles(titles, seen, LevelTitles(hits[i]));
      HitTitlesStep(hits, i);
      i := i + 1;
    }
    assert hits[..|hits|] == hits;
  }

  /** `contesto_riassunti_list` */
  method CollectSummaries(titles: seq<string>, summaries: map<string, Value>) returns (blocks: seq<string>)
    ensures blocks == SummaryBlocks(titles, summaries)
  {
    blocks := [];
    var k := 0;
    while k < |titles|
      invariant 0 <= k <= |titles|
      invariant blocks + SummaryBlocks(titles[k..], summaries) == SummaryBlocks(titles, summaries)
    {
      var t := titles[k];
      var kept := if t in summaries && Truthy(summaries[t]) then [SummaryBlock(t, summaries[t])] else [];
      assert SummaryBlocks(titles[k..], summaries) == kept + SummaryBlocks(titles[k + 1..], summaries) by {
        assert titles[k..][0] == t && titles[k..][1..] == titles[k + 1..];
      }
      Reassociate(blocks + kept + SummaryBlocks(titles[k + 1..], summaries), blocks + kept, blocks, kept,
                  SummaryBlocks(titles[k + 1..], summaries), SummaryBlocks(titles[k..], summaries));
      if t in summaries && Truthy(summaries[t]) {
        blocks := blocks + [SummaryBlock(t, summaries[t])];
      }
      k := k + 1;
    }
    assert titles[k..] == [];
  }

  /** The context assembly of `main_cycle`: titles collected hit by hit
      (levels 3, 2, 1, skipping missing and already seen ones), then the
      blocks of the titles with a summary, then the excerpts of every hit. */
  method AssembleContext(hits: seq<Retriever.Hit>, summaries: map<string, Value>) returns (context: string)
    ensures context == ContextFor(hits, summaries)
  {
    var titles := CollectTitles(hits);
    var blocks := CollectSummaries(titles, summaries);
    var summaryText := Join(Separator, blocks) + (if blocks != [] then Separator else "");
    var chunkText := Join(Separator, ChunkTexts(hits));
    context := summaryText + ExcerptsHeading + chunkText;
  }

  lemma HitTitlesStep(hits: seq<Retriever.Hit>, i: nat)
    requires i < |hits|
    ensures HitTitles(hits[..i + 1]) == HitTitles(hits[..i]) + LevelTitles(hits[i])
  {
    var xs := seq(i, k requires 0 <= k < i => LevelTitles(hits[..i][k]));
    assert seq(i + 1, k requires 0 <= k < i + 1 => LevelTitles(hits[..i + 1][k])) == xs + [LevelTitles(hits[i])];
    FlattenAppend(xs, LevelTitles(hits[i]));
  }

  lemma {:induction false} FlattenMember<T>(xss: seq<seq<T>>, x: T)
    ensures x in Flatten(xss) <==> exists i :: 0 <= i < |xss| && x in xss[i]
  {
    if xss != [] {
      FlattenMember(xss[1..], x);
      assert forall i :: 1 <= i < |xss| ==> xss[1..][i - 1] == xss[i];
    }
  }

  /** The collected titles are distinct, and they are exactly the non-empty
      level titles of the hits. */
  lemma SectionTitlesFacts(hits: seq<Retriever.Hit>)
    ensures var ts := SectionTitles(hits);
      && (forall i, j :: 0 <= i < j < |ts| ==> ts[i] != ts[j])
      && forall t :: t in ts <==> exists i :: 0 <= i < |hits| && t in LevelTitles(hits[i])
  {
    var xss := seq(|hits|, i requires 0 <= i < |hits| => LevelTitles(hits[i]));
    forall t ensures t in Flatten(xss) <==> exists i :: 0 <= i < |hits| && t in LevelTitles(hits[i]) {
      FlattenMember(xss, t);
      assert forall i :: 0 <= i < |hits| ==> xss[i] == LevelTitles(hits[i]);
    }
    assert HitTitles(hits) == Flatten(xss);
  }

  /** A title with a non-empty summary contributes its block; every block
      comes from such a title. */
  lemma {:induction false} SummaryBlocksFacts(titles: seq<string>, summaries: map<string, Value>)
    ensures forall t :: t in titles && t in summaries && Truthy(summaries[t]) ==> SummaryBlock(t, summaries[t]) in SummaryBlocks(titles, summaries)
    ensures forall b :: b in SummaryBlocks(titles, summaries) ==>
      exists t :: t in titles && t in summaries && Truthy(summaries[t]) && b == SummaryBlock(t, summaries[t])
  {
    if titles != [] {
      SummaryBlocksFacts(titles[1..], summaries);
      assert forall t :: t in titles ==> t == titles[0] || t in titles[1..];
    }
  }

  /** The context holds the excerpt of every hit, not only of the ones shown
      on screen. */
  lemma ContextCoversEveryHit(hits: seq<Retriever.Hit>, summaries: map<string, Value>, k: nat)
    requires k < |hits|
    ensures Contains(ContextFor(hits, summaries), ChunkText(hits[k]))
  {
    var blocks := SummaryBlocks(SectionTitles(hits), summaries);
    var front := Join(Separator, blocks) + (if blocks != [] then Separator else "") + ExcerptsHeading;
    JoinContainsParts(Separator, ChunkTexts(hits), k);
    ContainsWidens(Join(Separator, ChunkTexts(hits)), ChunkText(hits[k]), front, "");
    assert front + Join(Separator, ChunkTexts(hits)) + "" == ContextFor(hits, summaries);
  }

  // ---------------------------------------------------------------------
  // One turn of the loop

  /** The way a turn was answered, as recorded in the session log. */
  datatype Path = FollowUpPath | StructuralPath | FallbackPath | RagPath

  /** One record of the session log (`current_turn_data`). */
  datatype LogEntry = LogEntry(question: string, path: Path, analysis: Record,
                               originalQuestion: Option<string>,
                               contextChunks: Option<seq<Retriever.Hit>>,
                               finalAnswer: string)

  /** What is kept of the last new question for a follow-up
      (`last_interaction_info`); the empty dict is NoInteraction. */
  datatype Interaction =
    | NoInteraction
    | Interaction(question: string, context: Option<string>, answer: Option<string>)

  /** A call of the generator: context, question and model key. */
  datatype Request = Request(context: string, question: string, model: string)

  /** The outside services a turn calls: the router model (None when the call
      raises), the JSON parser, the vector search and the generator, which is
      given the request and the system prompt and always returns some text. */
  datatype Services = Services(
    route: string -> Option<string>,
    parse: string -> Option<Record>,
    search: (Option<seq<Retriever.Condition>>, nat) -> Option<seq<Retriever.Hit>>,
    generate: (Request, string) -> string)

  const NoInformation := "\U{1f6ab} NESSUNA INFORMAZIONE TROVATA."

  /** A stored text that Python finds truthy. */
  predicate Filled(text: Option<string>) {
    text.Some? && text.value != ""
  }

  /** The model of a turn: the first alias's model, else the selected one. */
  function ChosenModel(lower: string, selected: string): string {
    match FirstAlias(lower)
    case Some(alias) => alias.1
    case None => selected
  }

  /** The generation request of a follow-up; None when the turn is abandoned. */
  function FollowUpRequest(lower: string, last: Interaction, selected: string): (r: Option<Request>)
    ensures r.None? <==> last.NoInteraction? || (!Filled(last.answer) && !Filled(last.context))
    ensures r.Some? ==> r.value.model == ChosenModel(lower, selected)
  {
    if last.NoInteraction? then None
    else
      var style := Style(lower);
      var model := ChosenModel(lower, selected);
      if Filled(last.answer) then
        Some(Request("La domanda originale era: " + last.question,
          "Rielabora la seguente risposta in modo pi\U{f9} " + style + ":\n\nRisposta Originale: \""
          + last.answer.value + "\"\n\nDomanda Originale: \"" + last.question + "\"", model))
      else if Filled(last.context) then
        Some(Request(last.context.value,
          "Rispondi in modo pi\U{f9} " + style + " e articolato alla seguente domanda:\n\n" + last.question, model))
      else None
  }

  /** The log record of a follow-up, None when the turn is abandoned. */
  function FollowUpEntry(input: string, last: Interaction, selected: string, systemPrompt: string,
                         generate: (Request, string) -> string): (r: Option<LogEntry>)
    ensures r.None? <==> FollowUpRequest(Lower(input), last, selected).None?
    ensures r.Some? ==>
      && r.value.question == input && r.value.path == FollowUpPath
      && r.value.analysis == map["style" := Str(Style(Lower(input)))]
      && r.value.originalQuestion == Some(last.question) && r.value.contextChunks.None?
  {
    var lower := Lower(input);
    match FollowUpRequest(lower, last, selected)
    case None => None
    case Some(req) =>
      Some(LogEntry(input, FollowUpPath, map["style" := Str(Style(lower))], Some(last.question), None,
                    generate(req, systemPrompt)))
  }

  /** The question with the first alias removed (exact case), then stripped. */
  function CleanQuestion(input: string): string {
    match FirstAlias(Lower(input))
    case Some(alias) => Strip(ReplaceAll(input, alias.0, ""))
    case None => input
  }

  /** The hits of `run_rag_search`. */
  function RagHits(analysis: Record, question: string,
                   search: (Option<seq<Retriever.Condition>>, nat) -> Option<seq<Retriever.Hit>>): seq<Retriever.Hit> {
    match Retriever.MustConditions(analysis)
    case None => []
    case Some(conds) => match search(Retriever.FilterOf(conds), Retriever.SearchLimit)
      case None => []
      case Some(found) => StableSort.SortDesc(found, Retriever.FinalScore(Retriever.QueryWords(question)))
  }

  /** The question a new turn works on: alias removed, ordinals replaced. */
  function Preprocessed(input: string): string {
    ApplyTable(CleanQuestion(input), Ordinals.OrdinalTable, true)
  }

  /** The log record and the new interaction of a new question whose
      preprocessed text is `pre`, answered with `model`; None when the
      structural handler raises, which ends the session. */
  function Answer(input: string, pre: string, model: string, systemPrompt: string, structures: seq<Document>,
                  summaries: map<string, Value>, services: Services): (r: Option<(LogEntry, Interaction)>)
    ensures r.Some? ==> r.value.0.question == input && r.value.0.path != FollowUpPath && r.value.0.originalQuestion.None?
    ensures r.Some? ==> r.value.1.Interaction? && r.value.1.question == pre
    ensures r.Some? ==> (r.value.1.context.Some? <==> r.value.0.path == RagPath)
    ensures r.Some? ==> (r.value.1.answer.Some? <==> r.value.0.path == StructuralPath)
    ensures r.Some? ==> (r.value.0.contextChunks.Some? <==> r.value.0.path == RagPath)
    ensures r.Some? && r.value.0.path == FallbackPath ==> r.value.0.finalAnswer == NoInformation
  {
    var analysis := Resolver.AnalyzeQuery(services.route(pre), services.parse);
    if Resolver.IsStructural(analysis) then
      var reply := Resolver.StructuralReply(analysis, structures);
      if reply.Reply? then
        Some((LogEntry(input, StructuralPath, analysis, None, None, reply.text), Interaction(pre, None, Some(reply.text))))
      else None
    else
      var hits := RagHits(analysis, pre, services.search);
      if hits == [] then
        Some((LogEntry(input, FallbackPath, analysis, None, None, NoInformation), Interaction(pre, None, None)))
      else
        var context := ContextFor(hits, summaries);
        var answer := services.generate(Request(context, pre, model), systemPrompt);
        Some((LogEntry(input, RagPath, analysis, None, Some(hits), answer), Interaction(pre, Some(context), None)))
  }

  /** The log record and the new interaction of a new question. */
  function NewQuestionTurn(input: string, selected: string, systemPrompt: string, structures: seq<Document>,
                           summaries: map<string, Value>, services: Services): Option<(LogEntry, Interaction)> {
    Answer(input, Preprocessed(input), ChosenModel(Lower(input), selected), systemPrompt, structures, summaries, services)
  }

  /** The state after a follow-up: the loop goes on with the same
      interaction, and the entry, if any, is logged. */
  function FollowUpOutcome(entry: Option<LogEntry>, last: Interaction, log: seq<LogEntry>)
    : (Status, Interaction, seq<LogEntry>)
  {
    (Running, last, log + (if entry.Some? then [entry.value] else []))
  }

  /** The state after a new question: the answer is logged and becomes the
      stored interaction, or the exception ends the loop. */
  function QuestionOutcome(turn: Option<(LogEntry, Interaction)>, log: seq<LogEntry>)
    : (Status, Interaction, seq<LogEntry>)
  {
    match turn
    case Some(t) => (Running, t.1, log + [t.0])
    case None => (Raised, NoInteraction, log)
  }

  /** The status, the stored interaction and the log after an input that is
      neither "exit" nor "/task": a follow-up when the input asks for one, a
      new question otherwise. */
  function AskOutcome(input: string, services: Services, last: Interaction, log: seq<LogEntry>, selected: string,
                      systemPrompt: string, structures: seq<Document>, summaries: map<string, Value>)
    : (Status, Interaction, seq<LogEntry>)
  {
    if IsFollowUp(Lower(input)) then
      FollowUpOutcome(FollowUpEntry(input, last, selected, systemPrompt, services.generate), last, log)
    else
      QuestionOutcome(NewQuestionTurn(input, selected, systemPrompt, structures, summaries, services), log)
  }

  /** Answers a new question along the structural, fallback or retrieval path. */
  method AnswerQuestion(input: string, pre: string, model: string, systemPrompt: string, structures: seq<Document>,
                        summaries: map<string, Value>, services: Services)
    returns (turn: Option<(LogEntry, Interaction)>)
    ensures turn == Answer(input, pre, model, systemPrompt, structures, summaries, services)
  {
    var analysis := Resolver.AnalyzeQuery(services.route(pre), services.parse);
    if Resolver.IsStructural(analysis) {
      var reply := Resolver.HandleStructuralQuery(analysis, structures);
      if !reply.Reply? {
        return None;
      }
      turn := Some((LogEntry(input, StructuralPath, analysis, None, None, reply.text),
                    Interaction(pre, None, Some(reply.text))));
    } else {
      var hits := Retriever.RunRagSearch(analysis, pre, services.search);
      if hits == [] {
        turn := Some((LogEntry(input, FallbackPath, analysis, None, None, NoInformation), Interaction(pre, None, None)));
      } else {
        var context := AssembleContext(hits, summaries);
        var answer := services.generate(Request(context, pre, model), systemPrompt);
        turn := Some((LogEntry(input, RagPath, analysis, None, Some(hits), answer), Interaction(pre, Some(context), None)));
      }
    }
  }

  lemma ContainsItself(s: string, a: string, c: string)
    ensures Contains(a + s + c, s)
  {
    assert OccursAt(s, s, 0);
    ContainsWidens(s, s, a, c);
  }

  /** A follow-up rewrites the stored answer when there is one, quoting it
      and the original question; otherwise it asks the original question
      again over the stored context. */
  lemma FollowUpUsesStoredText(lower: string, last: Interaction, selected: string)
    requires last.Interaction?
    ensures var r := FollowUpRequest(lower, last, selected);
      && (Filled(last.answer) ==>
            && r.Some? && r.value.context == "La domanda originale era: " + last.question
            && Contains(r.value.question, last.answer.value) && Contains(r.value.question, last.question))
      && (!Filled(last.answer) && Filled(last.context) ==>
            && r.Some? && r.value.context == last.context.value && Contains(r.value.question, last.question))
  {
    var style := Style(lower);
    if Filled(last.answer) {
      var head := "Rielabora la seguente risposta in modo pi\U{f9} " + style + ":\n\nRisposta Originale: \"";
      var tail := "\"\n\nDomanda Originale: \"" + last.question + "\"";
      ContainsItself(last.answer.value, head, tail);
      assert head + last.answer.value + tail == FollowUpRequest(lower, last, selected).value.question;
      var front := head + last.answer.value + "\"\n\nDomanda Originale: \"";
      ContainsItself(last.question, front, "\"");
      assert front + last.question + "\"" == FollowUpRequest(lower, last, selected).value.question;
    } else if Filled(last.context) {
      var head := "Rispondi in modo pi\U{f9} " + style + " e articolato alla seguente domanda:\n\n";
      ContainsItself(last.question, head, "");
      assert head + last.question + "" == FollowUpRequest(lower, last, selected).value.question;
    }
  }

  /** The turn raises exactly when the structural handler does; otherwise
      the structural path is taken exactly for a structural analysis, and its
      answer is the structural reply. */
  lemma StructuralPathAnswer(input: string, pre: string, model: string, systemPrompt: string,
                             structures: seq<Document>, summaries: map<string, Value>, services: Services)
    ensures var r := Answer(input, pre, model, systemPrompt, structures, summaries, services);
      var analysis := Resolver.AnalyzeQuery(services.route(pre), services.parse);
      && (r.None? <==> Resolver.StructuralReply(analysis, structures).Raises?)
      && (r.Some? ==>
            && r.value.0.analysis == analysis
            && (r.value.0.path == StructuralPath <==> Resolver.IsStructural(analysis))
            && (r.value.0.path == StructuralPath ==>
                  Resolver.StructuralReply(analysis, structures).Reply?
                  && Resolver.StructuralReply(analysis, structures).text == r.value.0.finalAnswer))
  {
  }

  /** Zero hits give the fixed message without calling the generator: the
      turn is the same whatever the generator would answer. */
  lemma FallbackNeedsNoGeneration(input: string, pre: string, model: string, systemPrompt: string,
                                  structures: seq<Document>, summaries: map<string, Value>, services: Services,
                                  other: (Request, string) -> string)
    requires var r := Answer(input, pre, model, systemPrompt, structures, summaries, services);
      r.Some? && r.value.0.path == FallbackPath
    ensures Answer(input, pre, model, systemPrompt, structures, summaries, services.(generate := other))
         == Answer(input, pre, model, systemPrompt, structures, summaries, services)
    ensures Answer(input, pre, model, systemPrompt, structures, summaries, services).value.1 == Interaction(pre, None, None)
  {
  }

  /** A retrieval answer is generated over a context that holds the excerpt
      of every hit found, and the log keeps those hits. */
  lemma RagContextCoversHits(input: string, pre: string, model: string, systemPrompt: string,
                             structures: seq<Document>, summaries: map<string, Value>, services: Services)
    requires var r := Answer(input, pre, model, systemPrompt, structures, summaries, services);
      r.Some? && r.value.0.path == RagPath
    ensures var r := Answer(input, pre, model, systemPrompt, structures, summaries, services).value;
      var hits := r.0.contextChunks.value;
      && hits != [] && hits == RagHits(r.0.analysis, pre, services.search)
      && r.0.finalAnswer == services.generate(Request(r.1.context.value, pre, model), systemPrompt)
      && forall k :: 0 <= k < |hits| ==> Contains(r.1.context.value, ChunkText(hits[k]))
  {
    var r := Answer(input, pre, model, systemPrompt, structures, summaries, services).value;
    var hits := r.0.contextChunks.value;
    forall k | 0 <= k < |hits| ensures Contains(r.1.context.value, ChunkText(hits[k])) {
      ContextCoversEveryHit(hits, summaries, k);
    }
  }

  /** The first alias occurring in the input, trying them in order. */
  method FindAlias(lower: string) returns (found: Option<(string, string)>)
    ensures found == FirstAlias(lower)
  {
    var i := 0;
    while i < |Aliases|
      invariant 0 <= i <= |Aliases|
      invariant forall j :: 0 <= j < i ==> !Contains(lower, Aliases[j].0)
    {
      if Contains(lower, Aliases[i].0) {
        return Some(Aliases[i]);
      }
      i := i + 1;
    }
    return None;
  }

  /** Whether the loop goes on, was left with "exit", or was ended by an
      exception that nothing catches. */
  datatype Status = Running | Exited | Raised

  /** The state of the interactive loop of one user. */
  class Session {
    const prompts: Dict<string, string>
    const structures: seq<Document>
    const summaries: map<string, Value>
    var taskKey: string
    var modelKey: string
    var systemPrompt: string
    var last: Interaction
    var log: seq<LogEntry>
    var status: Status

    /** The selected task has a prompt, which is the system prompt; the
        selected model is a generator; a stored interaction never holds both
        a context and an answer. */
    predicate Valid()
      reads this
    {
      && taskKey in prompts.values && systemPrompt == prompts.values[taskKey]
      && modelKey in ModelKeys && modelKey != "router"
      && (last.Interaction? ==> last.context.None? || last.answer.None?)
    }

    /** The loop after the task and the model have been chosen. */
    constructor (prompts: Dict<string, string>, structures: seq<Document>, summaries: map<string, Value>,
                 task: string, model: string)
      requires task in prompts.values && model in ModelKeys && model != "router"
      ensures Valid()
      ensures this.prompts == prompts && this.structures == structures && this.summaries == summaries
      ensures taskKey == task && modelKey == model && systemPrompt == prompts.values[task]
      ensures last == NoInteraction && log == [] && status == Running
    {
      this.prompts := prompts;
      this.structures := structures;
      this.summaries := summaries;
      taskKey := task;
      modelKey := model;
      systemPrompt := prompts.values[task];
      last := NoInteraction;
      log := [];
      status := Running;
    }

    /** One turn on the raw input line; `task` and `model` are the menu
        choices made if the input is "/task". */
    method Turn(raw: string, services: Services, task: string, model: string)
      requires Valid() && status == Running
      requires task in prompts.values && model in ModelKeys && model != "router"
      modifies this
      ensures Valid()
      ensures Lower(Strip(raw)) == "exit" ==>
        && status == Exited && taskKey == old(taskKey) && modelKey == old(modelKey)
        && systemPrompt == old(systemPrompt) && last == old(last) && log == old(log)
      ensures Lower(Strip(raw)) == "/task" ==>
        && status == Running && taskKey == task && modelKey == model && systemPrompt == prompts.values[task]
        && last == NoInteraction && log == old(log)
      ensures Lower(Strip(raw)) != "exit" && Lower(Strip(raw)) != "/task" ==>
        && taskKey == old(taskKey) && modelKey == old(modelKey) && systemPrompt == old(systemPrompt)
        && (status, last, log)
           == AskOutcome(Strip(raw), services, old(last), old(log), old(modelKey), old(systemPrompt), structures, summaries)
    {
      var input := Strip(raw);
      var lower := Lower(input);
      if lower == "exit" {
        Exit();
        return;
      }
      if lower == "/task" {
        ChangeTask(task, model);
        return;
      }
      Ask(raw, services);
    }

    /** "exit": the loop ends. */
    method Exit()
      requires Valid()
      modifies this`status
      ensures Valid() && status == Exited
    {
      status := Exited;
    }

    /** "/task": the task and the model are chosen again and the stored
        interaction is forgotten. */
    method ChangeTask(task: string, model: string)
      requires Valid() && task in prompts.values && model in ModelKeys && model != "router"
      modifies this`taskKey, this`systemPrompt, this`modelKey, this`last
      ensures Valid()
      ensures taskKey == task && modelKey == model && systemPrompt == prompts.values[task] && last == NoInteraction
    {
      taskKey := task;
      systemPrompt := prompts.values[task];
      modelKey := model;
      last := NoInteraction;
    }

    /** Any other input: a follow-up when it asks for one, a new question
        otherwise. */
    method Ask(raw: string, services: Services)
      requires Valid() && status == Running
      modifies this`log, this`last, this`status
      ensures Valid()
      ensures (status, last, log)
        == AskOutcome(Strip(raw), services, old(last), old(log), old(modelKey), old(systemPrompt), structures, summaries)
    {
      var input := Strip(raw);
      var lower := Lower(input);
      if IsFollowUp(lower) {
        FollowUp(input, services.generate);
      } else {
        NewQuestion(input, services);
      }
    }

    /** A follow-up: regenerates from the stored answer or context; logs
        nothing when there is no usable interaction. */
    method FollowUp(input: string, generate: (Request, string) -> string)
      requires Valid() && status == Running
      modifies this`log
      ensures Valid()
      ensures (status, last, log)
        == FollowUpOutcome(FollowUpEntry(input, old(last), old(modelKey), old(systemPrompt), generate), old(last), old(log))
    {
      if last.NoInteraction? {
        assert log + [] == log;
        return;
      }
      var lower := Lower(input);
      var alias := FindAlias(lower);
      var model := if alias.Some? then alias.value.1 else modelKey;
      var style := Style(lower);
      var request: Request;
      if last.answer.Some? && last.answer.value != "" {
        request := Request("La domanda originale era: " + last.question,
          "Rielabora la seguente risposta in modo pi\U{f9} " + style + ":\n\nRisposta Originale: \""
          + last.answer.value + "\"\n\nDomanda Originale: \"" + last.question + "\"", model);
      } else if last.context.Some? && last.context.value != "" {
        request := Request(last.context.value,
          "Rispondi in modo pi\U{f9} " + style + " e articolato alla seguente domanda:\n\n" + last.question, model);
      } else {
        assert FollowUpEntry(input, last, modelKey, systemPrompt, generate).None?;
        assert log + [] == log;
        return;
      }
      var answer := generate(request, systemPrompt);
      log := log + [LogEntry(input, FollowUpPath, map["style" := Str(style)], Some(last.question), None, answer)];
    }

    /** A new question: clears the interaction, answers along the structural,
        fallback or retrieval path, logs the turn and remembers it; an
        exception in the structural handler ends the loop instead. */
    method NewQuestion(input: string, services: Services)
      requires Valid() && status == Running
      modifies this`log, this`last, this`status
      ensures Valid()
      ensures (status, last, log)
        == QuestionOutcome(NewQuestionTurn(input, old(modelKey), old(systemPrompt), structures, summaries, services), old(log))
    {
      last := NoInteraction;
      var lower := Lower(input);
      var cleaned := input;
      var alias := FindAlias(lower);
      if alias.Some? {
        cleaned := Strip(ReplaceAll(input, alias.value.0, ""));
      }
      var model := if alias.Some? then alias.value.1 else modelKey;
      var pre := Ordinals.PreprocessQuery(cleaned);
      var turn := AnswerQuestion(input, pre, model, systemPrompt, structures, summaries, services);
      if turn.None? {
        status := Raised;
        return;
      }
      log := log + [turn.value.0];
      last := turn.value.1;
    }
  }
}
