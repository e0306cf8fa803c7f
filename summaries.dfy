// Section summaries (`1_create_summaries.py`, for the Constitution and for
// the Chamber rulebook): every structure node that lists articles is
// summarised from the text of its articles, in pre-order. A node whose title
// already has a summary is skipped without counting; otherwise the counter
// goes up before the node's text is assembled, a node without text is
// skipped, and a failed generation ends the loop. With a limit, no node is
// summarised once the counter has reached it. The language model is a
// parameter: `generate` answers the n-th request (None for any failure).
module Summaries {
  import opened Wrappers
  import opened Text
  import opened Json
  import opened Structure

  /** The two scripts: the Constitution's (no limit, labelled article
      texts) and the rulebook's (a limit of 3, raw article texts). */
  datatype Script = Constitution | Rulebook

  const RulebookLimit: nat := 3

  /** `max_summaries_to_generate`: None for no limit. */
  function Limit(script: Script): Option<nat> {
    if script.Constitution? then None else Some(RulebookLimit)
  }

  // ---------------------------------------------------------------------
  // The text of a node

  /** `articles_text_map.get(art_id)` when truthy: the map's keys are
      strings, so an article listed as a number finds no text. */
  function TextOf(articles: map<string, string>, art: Value): Option<string> {
    if art.Str? && art.s in articles && articles[art.s] != "" then Some(articles[art.s]) else None
  }

  function Part(script: Script, art: Value, text: string): string {
    if script.Constitution? then "Testo Articolo " + PyStr(art) + ":\n" + text else text
  }

  /** The pieces joined into a node's text: one per article with text, in
      the node's order. */
  function Parts(script: Script, articles: map<string, string>, arts: seq<Value>): (ps: seq<string>)
    ensures |ps| <= |arts|
  {
    if arts == [] then []
    else
      var rest := Parts(script, articles, arts[1..]);
      match TextOf(articles, arts[0])
      case Some(t) => [Part(script, arts[0], t)] + rest
      case None => rest
  }

  /** `full_node_text` */
  function NodeText(script: Script, articles: map<string, string>, node: Node): string {
    Join("\n\n", Parts(script, articles, node.articles))
  }

  /** A node's text has one piece for each of its articles that has text:
      none when no article has text, and every piece occurs in the text. */
  lemma {:induction false} PartsSpec(script: Script, articles: map<string, string>, arts: seq<Value>)
    ensures Parts(script, articles, arts) == [] <==> forall k :: 0 <= k < |arts| ==> TextOf(articles, arts[k]).None?
    ensures forall k :: 0 <= k < |arts| && TextOf(articles, arts[k]).Some? ==>
      Part(script, arts[k], TextOf(articles, arts[k]).value) in Parts(script, articles, arts)
  {
    if arts != [] {
      PartsSpec(script, articles, arts[1..]);
      assert forall k :: 1 <= k < |arts| ==> arts[1..][k - 1] == arts[k];
    }
  }

  /** The Constitution's node text is blank exactly when none of the node's
      articles has text; in both scripts a node without article text has
      an empty text. */
  lemma NodeTextBlank(script: Script, articles: map<string, string>, node: Node)
    ensures (forall k :: 0 <= k < |node.articles| ==> TextOf(articles, node.articles[k]).None?) ==>
      NodeText(script, articles, node) == ""
    ensures script.Constitution? ==>
      (Strip(NodeText(script, articles, node)) == "" <==>
       forall k :: 0 <= k < |node.articles| ==> TextOf(articles, node.articles[k]).None?)
  {
    var ps := Parts(script, articles, node.articles);
    PartsSpec(script, articles, node.articles);
    if script.Constitution? && ps != [] {
      var s := NodeText(script, articles, node);
      PartsNonEmptyHead(script, articles, node.articles);
      JoinStartsWithFirst("\n\n", ps);
      assert s[0] == 'T';
      assert TrimStart(s) == s;
      TrimEndKeeps(s, 0);
    }
  }

  /** The Constitution's pieces all start with their label. */
  lemma {:induction false} PartsNonEmptyHead(script: Script, articles: map<string, string>, arts: seq<Value>)
    requires script.Constitution?
    ensures forall p :: p in Parts(script, articles, arts) ==> |p| > 0 && p[0] == 'T'
  {
    if arts != [] {
      PartsNonEmptyHead(script, articles, arts[1..]);
    }
  }

  lemma JoinStartsWithFirst(sep: string, parts: seq<string>)
    requires parts != []
    ensures StartsWith(Join(sep, parts), parts[0])
  {
  }

  // ---------------------------------------------------------------------
  // The summary loop

  /** One generation request: the document title, the node title and the
      node text the prompt is built from. */
  datatype Request = Request(document: string, section: string, text: string)

  /** The model: the reply to the n-th request, None for any failure. */
  type Generator = (nat, Request) -> Option<string>

  /** The text of a node as the loop sees it: None when it is blank. */
  type Texter = Node -> Option<string>

  function NodeTexter(script: Script, articles: map<string, string>): Texter {
    (node: Node) => var t := NodeText(script, articles, node); if Strip(t) == "" then None else Some(t)
  }

  /** A call as the loop sees it: the reply, stripped. */
  type Summarizer = (nat, Request) -> Option<string>

  function Stripped(generate: Generator): Summarizer {
    (call: nat, q: Request) => var reply := generate(call, q); if reply.None? then None else Some(Strip(reply.value))
  }

  /** The state of the loop: the summaries object of the file (None when the
      loaded file has no "summaries" object), the counter and the calls made. */
  datatype State = State(store: Option<map<string, string>>, count: nat, calls: nat)

  /** `summaries_data.get("summaries", {})` */
  function Known(st: State): map<string, string> {
    if st.store.Some? then st.store.value else map[]
  }

  /** The loop over `nodes` from node `k` on, for the given document title,
      limit, node texts and model. */
  function Summarize(document: string, limit: Option<nat>, nodes: seq<Node>, k: nat,
                     text: Texter, summarize: Summarizer, st: State): State
    decreases |nodes| - k
  {
    if k >= |nodes| then st
    else if limit.Some? && st.count >= limit.value then st
    else
      var title := nodes[k].title;
      if title in Known(st) then Summarize(document, limit, nodes, k + 1, text, summarize, st)
      else
        var count := st.count + 1;
        var t := text(nodes[k]);
        if t.None? then
          Summarize(document, limit, nodes, k + 1, text, summarize, State(st.store, count, st.calls))
        else
          var reply := summarize(st.calls, Request(document, title, t.value));
          if reply.None? || st.store.None? then State(st.store, count, st.calls + 1)
          else
            var store := Some(st.store.value[title := reply.value]);
            Summarize(document, limit, nodes, k + 1, text, summarize, State(store, count, st.calls + 1))
  }

  /** `generate_summaries`, given the top-level nodes of the structure, the
      document title, the article texts and the loaded summaries object (an
      empty one when there is no file yet). An empty article map ends the
      run at once. */
  function SummaryRun(script: Script, document: string, structure: seq<Node>,
                      articles: map<string, string>, store: Option<map<string, string>>,
                      generate: Generator): State
  {
    var st := State(store, 0, 0);
    if articles == map[] then st
    else Summarize(document, Limit(script), LeafNodes(structure), 0, NodeTexter(script, articles), Stripped(generate), st)
  }

  /** Summaries already present are never changed, and every new one is
      stored under the title of a node visited, whose text was not blank. */
  lemma {:induction false} SummarizeKeeps(document: string, limit: Option<nat>, nodes: seq<Node>, k: nat,
                                          text: Texter, summarize: Summarizer, st: State)
    ensures var r := Summarize(document, limit, nodes, k, text, summarize, st);
      && r.store.Some? == st.store.Some?
      && (forall t :: t in Known(st) ==> t in Known(r) && Known(r)[t] == Known(st)[t])
      && (forall t :: t in Known(r) && t !in Known(st) ==>
            exists j :: k <= j < |nodes| && nodes[j].title == t && text(nodes[j]).Some?)
    decreases |nodes| - k
  {
    if k < |nodes| && !(limit.Some? && st.count >= limit.value) {
      var title := nodes[k].title;
      var count := st.count + 1;
      var t := text(nodes[k]);
      if title in Known(st) {
        SummarizeKeeps(document, limit, nodes, k + 1, text, summarize, st);
      } else if t.None? {
        SummarizeKeeps(document, limit, nodes, k + 1, text, summarize, State(st.store, count, st.calls));
      } else {
        var reply := summarize(st.calls, Request(document, title, t.value));
        if reply.Some? && st.store.Some? {
          var next := State(Some(st.store.value[title := reply.value]), count, st.calls + 1);
          SummarizeKeeps(document, limit, nodes, k + 1, text, summarize, next);
          var r := Summarize(document, limit, nodes, k + 1, text, summarize, next);
          forall u | u in Known(r) && u !in Known(st)
            ensures exists j :: k <= j < |nodes| && nodes[j].title == u && text(nodes[j]).Some?
          {
            if u != title {
              assert u !in Known(next);
              var j :| k + 1 <= j < |nodes| && nodes[j].title == u && text(nodes[j]).Some?;
            }
          }
        }
      }
    }
  }

  /** The counter never passes the limit, and a call is made only after the
      counter went up: no generation once the limit is reached. */
  lemma {:induction false} SummarizeCounts(document: string, limit: Option<nat>, nodes: seq<Node>, k: nat,
                                           text: Texter, summarize: Summarizer, st: State)
    requires limit.Some? ==> st.count <= limit.value
    ensures var r := Summarize(document, limit, nodes, k, text, summarize, st);
      && (limit.Some? ==> r.count <= limit.value)
      && st.count <= r.count
      && r.calls - st.calls <= r.count - st.count
    decreases |nodes| - k
  {
    if k < |nodes| && !(limit.Some? && st.count >= limit.value) {
      var title := nodes[k].title;
      var count := st.count + 1;
      var t := text(nodes[k]);
      if title in Known(st) {
        SummarizeCounts(document, limit, nodes, k + 1, text, summarize, st);
      } else if t.None? {
        SummarizeCounts(document, limit, nodes, k + 1, text, summarize, State(st.store, count, st.calls));
      } else {
        var reply := summarize(st.calls, Request(document, title, t.value));
        if reply.Some? && st.store.Some? {
          var next := State(Some(st.store.value[title := reply.value]), count, st.calls + 1);
          SummarizeCounts(document, limit, nodes, k + 1, text, summarize, next);
        }
      }
    }
  }

  /** Nodes whose titles all have summaries already cost nothing: the run
      changes nothing, counts nothing and makes no call. */
  lemma {:induction false} SummarizeAllKnown(document: string, limit: Option<nat>, nodes: seq<Node>, k: nat,
                                             text: Texter, summarize: Summarizer, st: State)
    requires forall j :: k <= j < |nodes| ==> nodes[j].title in Known(st)
    ensures Summarize(document, limit, nodes, k, text, summarize, st) == st
    decreases |nodes| - k
  {
    if k < |nodes| && !(limit.Some? && st.count >= limit.value) {
      SummarizeAllKnown(document, limit, nodes, k + 1, text, summarize, st);
    }
  }

  /** Without a limit, with a summaries object and a model that always
      answers, every node with a non-blank text ends up with a summary. */
  lemma {:induction false} SummarizeComplete(document: string, nodes: seq<Node>, k: nat,
                                             text: Texter, summarize: Summarizer, st: State)
    requires st.store.Some?
    requires forall c, q :: summarize(c, q).Some?
    ensures var r := Summarize(document, None, nodes, k, text, summarize, st);
      forall j :: k <= j < |nodes| && text(nodes[j]).Some? ==> nodes[j].title in Known(r)
    decreases |nodes| - k
  {
    if k < |nodes| {
      var title := nodes[k].title;
      var t := text(nodes[k]);
      var next := if title in Known(st) then st
        else if t.None? then State(st.store, st.count + 1, st.calls)
        else State(Some(st.store.value[title := summarize(st.calls, Request(document, title, t.value)).value]), st.count + 1, st.calls + 1);
      assert Summarize(document, None, nodes, k, text, summarize, st)
          == Summarize(document, None, nodes, k + 1, text, summarize, next);
      SummarizeComplete(document, nodes, k + 1, text, summarize, next);
      SummarizeKeeps(document, None, nodes, k + 1, text, summarize, next);
    }
  }

  /** The loop of `generate_summaries` over the nodes to summarise, with
      the node texts and the model as the loop sees them. */
  method SummarizeNodes(document: string, limit: Option<nat>, nodes: seq<Node>,
                        text: Texter, summarize: Summarizer, store: Option<map<string, string>>) returns (r: State)
    ensures r == Summarize(document, limit, nodes, 0, text, summarize, State(store, 0, 0))
  {
    var summaries := store;
    var generated: nat := 0;
    var calls: nat := 0;
    var k := 0;
    while k < |nodes|
      invariant 0 <= k <= |nodes|
      invariant Summarize(document, limit, nodes, 0, text, summarize, State(store, 0, 0))
             == Summarize(document, limit, nodes, k, text, summarize, State(summaries, generated, calls))
    {
      if limit.Some? && generated >= limit.value {
        break;
      }
      var title := nodes[k].title;
      var known := if summaries.Some? then summaries.value else map[];
      if title in known {
        k := k + 1;
        continue;
      }
      generated := generated + 1;
      var t := text(nodes[k]);
      if t.None? {
        k := k + 1;
        continue;
      }
      var reply := summarize(calls, Request(document, title, t.value));
      calls := calls + 1;
      if reply.None? || summaries.None? {
        break;
      }
      summaries := Some(summaries.value[title := reply.value]);
      k := k + 1;
    }
    r := State(summaries, generated, calls);
  }

  /** `generate_summaries` */
  method GenerateSummaries(script: Script, document: string, structure: seq<Node>,
                           articles: map<string, string>, store: Option<map<string, string>>,
                           generate: Generator) returns (r: State)
    ensures r == SummaryRun(script, document, structure, articles, store, generate)
  {
    if articles == map[] {
      return State(store, 0, 0);
    }
    var nodes := LeafNodes(structure);
    r := SummarizeNodes(document, Limit(script), nodes, NodeTexter(script, articles), Stripped(generate), store);
  }
}
