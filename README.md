# A verified model of an Italian legal question-answering tool

The system answers questions about two Italian legal texts: the Constitution and the rulebook of the Chamber of Deputies. It works by retrieval-augmented generation. It has two halves, and this project models the deterministic logic of both.

**Query engine** (`g_src/g_general`):
- Ordinal words in a question are rewritten as digits.
- A router's JSON answer is extracted tolerantly from the model's reply.
- Structural questions ("where is article 12?", "what does chapter III contain?") are answered by searching the document structure trees.
- Other questions go to a vector search. Its hits are filtered by the router's entities and re-ranked by keyword overlap.
- An interactive session keeps the last interaction so that a follow-up can ask for a short or a detailed rewrite.
- At start-up the registered sources' structures, section summaries, chunks and prompts are loaded and merged.

**Ingestion pipeline** (`c_processors`, one OCR script in `b_ocr`):
- A converted document is cleaned and cut into articles at their headings.
- Structure nodes that list articles are summarised.
- Paragraphs get keywords and semantic tags.
- Chunks are built carrying the hierarchy of their article.
- Embeddings are generated batch by batch.
- OCR entities of a scanned page are ordered into logical blocks.

The long-running steps resume from a progress file and save only whole units of work. On failures they differ:
- the tagging script stops after 5 consecutive failures and the embedding script after 3;
- the keyword and summary scripts stop at the first failed unit;
- in the earlier enrichment script an exception ends the run.

## How the model is organised

There is one module per component. Each is written in the form of its source:
- pure functions and lemmas where the source computes values;
- methods with loops and invariants where the source updates variables step by step;
- a class (`Session.Session`) for the interactive loop's mutable state.

Every loop-shaped method is proved equal to a specification function. The properties the source promises are lemmas about that function.

| module | models |
|---|---|
| `Wrappers`, `Text`, `JsonValues` | Option; Python string helpers (`find`, `rfind`, `strip`, `join`, `lower`, `str(n)`); decoded JSON values and dict records |
| `WordReplace` | whole-word substitution `re.sub(r'\bw\b', r, s)`, applied as a table |
| `OrderedMaps`, `StableSort` | Python dicts (insertion order, last write wins, `update`); Python's stable `sort`/`sorted` |
| `JsonExtract` | every variant of `clean_json_from_text` (object and list forms) |
| `Ordinals`, `Structure`, `Resolver`, `Retriever` | `utils.py`: ordinal preprocessing, pre-order tree walks, `handle_structural_query`, `rerank_results`, `run_rag_search` |
| `Session` | `5_ask.py`: menus, the turn step, follow-ups, context assembly |
| `Corpus` | `config.py`: `load_config_and_clients` |
| `Chunks`, `Tags`, `Embeddings` | `b_regcam/4_create_chunks.py`, `3_create_tags.py`, `5_create_embeddings.py` |
| `Segmentation`, `Keywords`, `Summaries` | `extract_articles_from_docx` in its three forms; `a_cost/2_create_keywords.py`; both `1_create_summaries.py` |
| `Newlines` | both `clean_text` variants (structure scripts, earlier enrichment script) |
| `LegacyEnrichment`, `LegacySegment` | `b_regcam/old/00_summarize_and_keyword.py`, `b_regcam/old/1_segment_gemini.py` |
| `OcrBlocks` | `b_ocr/scripts/c_gianniti_lupo/04_create_structured_text.py` |

**Notable behaviour the proofs make explicit**
- The structure scripts' `clean_text` is not idempotent: cleaning twice removes every newline. The earlier enrichment script's `clean_text` is idempotent.
- The earlier enrichment script resumes by article number. After article "15" it skips "15-bis", even when "15-bis" was never saved.
- The section counter of the summary scripts counts nodes without article text toward the test limit.
- The consecutive-error counter of the tagging script carries over from one article to the next.
- In the keywords script, the article-to-section map gives a shared article the title of the last leaf that lists it.
- In the chunk builder, a shared article takes the metadata of the last node, in pre-order, that lists it.

## Model

| member | source | states |
|---|---|---|
| Text.Find | g_src/g_general/utils.py:24 | `str.find`: the first index of the character, and None (Python's -1) exactly when it does not occur |
| Text.RFind | g_src/g_general/utils.py:24 | `str.rfind`: the last index of the character, and None exactly when it does not occur |
| Text.Strip | c_processors/a_cost/1_create_summaries.py:56 | `str.strip`: the result is no longer than the input and neither starts nor ends with whitespace |
| Text.StripSpec | c_processors/a_cost/1_create_summaries.py:56 | `str.strip` removes exactly the leading and trailing whitespace: the result is the slice between them, and everything cut off is whitespace |
| Text.JoinContainsParts | c_processors/a_cost/1_create_summaries.py:123-127 | every part of a join occurs in the joined text |
| WordReplace.ReplaceWordClears | g_src/g_general/utils.py:17 | after a whole-word substitution by a different word, no word of the text spells the replaced word |
| WordReplace.TableClears | g_src/g_general/utils.py:16-17 | after applying the whole substitution table, no word of the text spells any key of it |
| WordReplace.TableIdentity | g_src/g_general/utils.py:16-17 | a text with no word spelling a key of the table is returned unchanged |
| WordReplace.TableKeepsNonWord | g_src/g_general/utils.py:16-17 | the table keeps every non-word character, in order |
| WordReplace.TableReplacesWord | g_src/g_general/utils.py:16-17 | a single word spelling a key comes out as that key's replacement (the first entry with that key) |
| OrderedMaps.PutAllKeys | g_src/g_general/config.py:120 | assigning pairs into a dict keeps the earlier keys in place and adds the new keys in order of first appearance |
| OrderedMaps.PutAllValues | g_src/g_general/config.py:120 | after assigning pairs, each key holds the value of its last pair, other keys keep theirs |
| OrderedMaps.LastWinsKeys | c_processors/b_regcam/4_create_chunks.py:79-81 | the keys bound are exactly the keys of the pairs |
| OrderedMaps.LastWinsIs | c_processors/b_regcam/4_create_chunks.py:79-81 | a key assigned for the last time is bound to that value |
| OrderedMaps.UpdateValues | g_src/g_general/config.py:120 | `d.update(e)`: every key of e takes its value from e, and the other keys of d keep theirs |
| OrderedMaps.PutAllAppend | g_src/g_general/config.py:116-120 | assigning two runs of pairs in turn is assigning their concatenation |
| OrderedMaps.LastWinsAppend | g_src/g_general/config.py:116-120 | later assignments override earlier ones |
| OrderedMaps.FromPairsSpec | c_processors/b_regcam/old/00_summarize_and_keyword.py:103 | a dict comprehension lists each key once, in order of first appearance, binds exactly the keys of the pairs, and binds each to its last value |
| StableSort.SortDescFacts | g_src/g_general/utils.py:110 | the stable sort returns a permutation in non-increasing key order, with elements of equal key in input order |
| StableSort.SortDescIdentity | g_src/g_general/utils.py:110 | an input already in order is returned as it is |
| StableSort.SortDecorated | g_src/g_general/utils.py:109-111 | sorting (key, element) pairs on the key and keeping the elements is sorting the elements by key |
| WordReplace.TableReplacesAt | g_src/g_general/utils.py:16-17 | a whole word spelling a key, between non-word characters, is replaced by that key's replacement while the text on either side is rewritten on its own |
| WordReplace.TableKeepsLower | g_src/g_general/utils.py:72-76 | the table keeps a lower-cased text lower-case when its replacements are |
| Text.RemoveChars | g_src/g_general/utils.py:76-77 | the chained `.replace(c, "")`: no removed character is left, and the text does not grow |
| Text.NatToString | c_processors/b_regcam/old/1_segment_gemini.py:20 | `str(n)`: a non-empty run of decimal digits |
| Text.NatToStringValue | c_processors/b_regcam/old/1_segment_gemini.py:20 | `str(n)` is the decimal numeral of n: its digits denote n, with no leading zero unless n is 0 |
| Text.Dedup | g_src/g_general/5_ask.py:217-223 | the distinct elements in order of first occurrence: the same elements, none repeated |
| Text.DedupFirstOrder | g_src/g_general/5_ask.py:217-223 | the distinct elements come in the order of their first occurrences in the input |
| JsonExtract.WsLenSpec | g_src/g_general/utils.py:22 | the greedy `\s*`: every counted character is whitespace and the next one is not |
| JsonExtract.FirstCloseSpec | g_src/g_general/utils.py:22 | the lazy `[\s\S]*?` stops at the first position where the closing bracket, whitespace and the closing fence follow, and at no earlier one; None means no position closes |
| JsonExtract.FirstFenceSpec | g_src/g_general/utils.py:22 | `re.search` finds the leftmost fenced match; no earlier position starts one; None means no position does |
| JsonExtract.FenceGroup | g_src/g_general/utils.py:22-23 | the captured group starts with the opening bracket, ends with the closing one, and occurs in the text |
| JsonExtract.FencedGroup | g_src/g_general/utils.py:22-23 | `match.group(1)` of the fence search: None exactly when no fence matches; otherwise a slice of the text that starts with the opening bracket and ends with the closing one |
| JsonExtract.CleanJson | g_src/g_general/utils.py:20-25 | whenever a fence matches, the result is the fence's captured group; otherwise it is the empty document or a bracketed slice of the text, and with neither a fence nor both brackets it is the empty document |
| JsonExtract.CleanJsonFallback | g_src/g_general/utils.py:24-25 | without a fence, the result runs from the first opening bracket to the last closing bracket |
| JsonExtract.FirstCloseIs | g_src/g_general/utils.py:22 | the earliest closing position is the one found |
| JsonExtract.CleanJsonFenceRoundTrip | g_src/g_general/utils.py:22-23 | a bracketed document with no closing bracket inside, wrapped in a ```json fence, is extracted unchanged |
| JsonExtract.CleanJsonFenceAtStart | g_src/g_general/utils.py:22-23 | a fence at the start of the text gives its group |
| JsonExtract.FencedBody | g_src/g_general/utils.py:22 | the fence pattern matches a wrapped document at position 0 and captures exactly the document |
| JsonExtract.FenceOpens | g_src/g_general/utils.py:22 | the opening ```json tag, one whitespace character and the opening bracket are where the pattern expects them |
| JsonExtract.InnerDoesNotClose | g_src/g_general/utils.py:22 | no position inside the wrapped document closes the fence |
| JsonExtract.FenceCloses | g_src/g_general/utils.py:22 | the closing bracket followed by a newline and the closing fence closes the match |
| Ordinals.PreprocessQuery | g_src/g_general/utils.py:9-18 | the loop applies, in table order, one case-insensitive whole-word substitution per ordinal |
| Ordinals.OrdinalTableWellFormed | g_src/g_general/utils.py:14 | the table's replacements are words that are not themselves ordinals, so later substitutions do not undo earlier ones |
| Ordinals.PreprocessRemovesOrdinals | g_src/g_general/utils.py:16-18 | after preprocessing no whole word spells an ordinal, in any case |
| Ordinals.PreprocessIdentity | g_src/g_general/utils.py:16-18 | a query without ordinal words is returned unchanged |
| Ordinals.PreprocessKeepsNonWord | g_src/g_general/utils.py:16-18 | every character outside the words is kept, in order |
| Ordinals.PreprocessReplacesOrdinal | g_src/g_general/utils.py:14-17 | a standalone ordinal in any case becomes its digits, and the text on either side is preprocessed independently |
| Structure.PreOrderPaths | g_src/g_general/utils.py:57-65 | every path built while descending extends the ancestors' titles and ends with the title of the node reached |
| Structure.LeafNodes | c_processors/a_cost/2_create_keywords.py:62-70 | every node returned lists at least one article |
| Structure.LeafNodesInPreOrder | c_processors/a_cost/2_create_keywords.py:62-70 | the leaf nodes are exactly the nodes of the depth-first walk that list articles, in walk order; a node with articles is reported and its children are still searched |
| Structure.FirstWhere | g_src/g_general/utils.py:79-87 | the first visit satisfying the test: it satisfies it, no earlier one does, and None means none does |
| Structure.FirstWhereAppend | g_src/g_general/utils.py:79-87 | the first match in a concatenation is in the first part if any is, else it is found in the second part |
| Structure.SearchIsFirstVisit | g_src/g_general/utils.py:79-87 | the recursive search with early return finds exactly the first node of the depth-first walk that satisfies the test, with its path, and nothing only when no node does |
| Resolver.NormalizeFragment | g_src/g_general/utils.py:71 | the search term is lower case and has no spaces or hyphens |
| Resolver.RemoveKeepsNoRun | g_src/g_general/utils.py:76-77 | removing spaces and hyphens after the roman rewrite cannot glue words into a new roman numeral |
| Resolver.RomanPrefixClosed | g_src/g_general/utils.py:73 | every prefix of a roman numeral i..x is one too, which makes the merged words above safe |
| Resolver.RomanTableFacts | g_src/g_general/utils.py:73-76 | the roman table's replacements are lower-case digit words that no later entry rewrites |
| Resolver.NormalizedTitleFacts | g_src/g_general/utils.py:72-77 | a normalised title is lower case, has no spaces or hyphens and no whole word that is a roman numeral i..x |
| Resolver.NormalizeTitleIdempotent | g_src/g_general/utils.py:72-77 | normalising a normalised title changes nothing |
| Resolver.FindArticlePath | g_src/g_general/utils.py:57-65 | the path is that of the first node of the depth-first walk that lists the article, or None |
| Resolver.FindNodeByTitle | g_src/g_general/utils.py:79-87 | the node is the first of the depth-first walk whose normalised title contains the term, or None |
| Resolver.ArticlePathIsFirstListing | g_src/g_general/utils.py:57-67 | a path is reported exactly when some node lists the article; it ends with the title of the first such node, and no earlier node lists it |
| Resolver.SectionIsFirstMatch | g_src/g_general/utils.py:79-89 | the node found is the first whose normalised title contains the term; nothing is found only when no title does |
| Resolver.AnalyzeQuery | g_src/g_general/utils.py:27-35 | a failed router call or undecodable reply gives the general-search fallback, otherwise the decoded object |
| Resolver.FallbackIsGeneral | g_src/g_general/utils.py:35 | the fallback analysis is not structural and has no entities |
| Resolver.DocTypeOf | g_src/g_general/utils.py:47-48 | a document type exists exactly for "costituzione" and "regolamento" |
| Resolver.ReadEntities | g_src/g_general/utils.py:42-48 | reading the entities raises exactly when `entities` is not a dict or a truthy document name is not a string; otherwise the document name is kept when truthy, and an article and a section exist exactly when their values are truthy |
| Resolver.Candidates | g_src/g_general/utils.py:50 | with no known type targeted, every document, in order |
| Resolver.CandidatesOne | g_src/g_general/utils.py:50 | a single document is kept exactly when it has the targeted type or no known type is targeted |
| Resolver.CandidatesAppend | g_src/g_general/utils.py:50 | the filter of a concatenation is the concatenation of the filters: with CandidatesOne, the kept documents come in input order with their repetitions |
| Resolver.CandidatesMembers | g_src/g_general/utils.py:50 | a document is kept exactly when it is in the list and has the targeted type, or no known type is targeted |
| Resolver.StructuralReply | g_src/g_general/utils.py:37-99 | the handler gives `None` exactly when the intent is not structural; otherwise a reply or an exception |
| Resolver.StructuralRaises | g_src/g_general/utils.py:42-71 | a structural query raises exactly when reading the entities raises, or the section value is truthy but not a string and the first candidate document does not list the asked article |
| Resolver.FirstReplyNeverRaises | g_src/g_general/utils.py:52-71 | with a string section, or none, the search over the documents never raises |
| Resolver.HandleStructuralQuery | g_src/g_general/utils.py:37-99 | the loop over candidate documents returns the reply the specification function gives |
| Resolver.FirstReplyAt | g_src/g_general/utils.py:52-91 | the first document that answers decides the reply |
| Resolver.FirstReplyNone | g_src/g_general/utils.py:52-91 | with no document answering, the loop gives nothing |
| Resolver.ArticleReply | g_src/g_general/utils.py:55-68 | asked only for an article, the reply names the first candidate document with a node listing it and the " -> " joined path |
| Resolver.NothingFound | g_src/g_general/utils.py:93-99 | when no document answers, the article message wins over the section message, and without either entity the query is not recognised |
| Resolver.DocReplyNone | g_src/g_general/utils.py:55-91 | a document that neither finds the article nor the section gives no reply |
| Resolver.UnrecognisedQuery | g_src/g_general/utils.py:99 | a structural query without an article or a section is never recognised, whatever the documents |
| Retriever.LongWords | g_src/g_general/utils.py:103 | each word found has at least three word characters and occurs in the query |
| Retriever.Bonus | g_src/g_general/utils.py:106-107 | the bonus is never negative, and it is zero exactly when no keyword contains a query word |
| Retriever.Rerank | g_src/g_general/utils.py:101-111 | the loop computes each hit's final score and the result is the stable sort by that score, highest first |
| Retriever.RerankIsStablePermutation | g_src/g_general/utils.py:108-111 | re-ranking returns the same hits, each as often as before, by non-increasing final score, and hits with equal scores keep their search order |
| Retriever.RerankWithoutOverlap | g_src/g_general/utils.py:106-111 | hits already in score order whose keywords share no word with the query come back unchanged |
| Retriever.MustConditions | g_src/g_general/utils.py:116-130 | building the filter fails (and the search returns nothing) exactly when the entities are not a dict or a truthy document name is not a string |
| Retriever.DocCondition | g_src/g_general/utils.py:119-123 | at most one condition, present exactly when the lower-cased document name maps to a type, and then on that type |
| Retriever.ArticleCondition | g_src/g_general/utils.py:124-130 | a condition exactly when the key is present: for a list, one alternative per item in order; otherwise one equality on `str(value)` |
| Retriever.RunRagSearch | g_src/g_general/utils.py:113-155 | no hits when the filter cannot be built or the search fails; otherwise the found hits re-ranked |
| Session.FirstValidChoice | g_src/g_general/5_ask.py:38-46 | the first answer that is a number in 1..n: it is valid, no earlier one is, and None means none is |
| Session.MenuChoice | g_src/g_general/5_ask.py:38-46 | a chosen key is one of the menu's keys |
| Session.AskMenu | g_src/g_general/5_ask.py:38-46 | the asking loop picks the key of the first valid answer |
| Session.FirstValidChoiceIs | g_src/g_general/5_ask.py:38-46 | a valid answer preceded only by invalid ones is the one taken |
| Session.SelectTask | g_src/g_general/5_ask.py:23-46 | no prompts means no task; otherwise the menu runs over the prompt names in loading order, and the task chosen has a prompt |
| Session.GeneratorKeys | g_src/g_general/5_ask.py:52-55 | the generator menu holds exactly the model keys other than the router |
| Session.SelectModel | g_src/g_general/5_ask.py:48-69 | the chosen model is a configured model and never the router |
| Session.FirstAliasSpec | g_src/g_general/5_ask.py:123-128 | the alias found occurs in the input and no alias earlier in the table does; None exactly when no alias occurs |
| Session.FindAlias | g_src/g_general/5_ask.py:174-180 | the loop over the aliases with `break` finds the first alias that occurs |
| Session.AddTitles | g_src/g_general/5_ask.py:220-223 | adding a hit's titles keeps the list the de-duplicated sequence of the titles seen, and `seen` its set |
| Session.CollectTitles | g_src/g_general/5_ask.py:217-223 | the titles of every hit, levels 3, 2, 1, missing ones skipped, each once, in first-seen order |
| Session.CollectSummaries | g_src/g_general/5_ask.py:224-228 | one block per collected title with a non-empty summary, in title order |
| Session.AssembleContext | g_src/g_general/5_ask.py:216-232 | the context is the summary blocks, each followed by the separator, then the heading and every hit's excerpt |
| Session.HitTitlesStep | g_src/g_general/5_ask.py:219-220 | the titles of one more hit are appended after those of the earlier hits |
| Session.SectionTitlesFacts | g_src/g_general/5_ask.py:217-223 | the collected titles are distinct and are exactly the non-empty level titles of the hits |
| Session.SummaryBlocksFacts | g_src/g_general/5_ask.py:224-228 | every title with a non-empty summary gives its block, and every block comes from such a title |
| Session.ContextCoversEveryHit | g_src/g_general/5_ask.py:231-232 | the context holds the excerpt of every hit, not only the 15 shown on screen |
| Session.FollowUpRequest | g_src/g_general/5_ask.py:115-153 | a follow-up is abandoned exactly when there is no interaction or neither a stored answer nor a stored context; otherwise it uses the alias model or the selected one |
| Session.FollowUpEntry | g_src/g_general/5_ask.py:110-165 | a follow-up is logged exactly when it is not abandoned, with the input, the style and the original question |
| Session.Answer | g_src/g_general/5_ask.py:169-250 | an answered question is logged with its input; the remembered interaction holds a context exactly on the retrieval path and an answer exactly on the structural path; the fallback answer is the fixed message |
| Session.AnswerQuestion | g_src/g_general/5_ask.py:184-250 | the method takes the structural, fallback or retrieval path as the specification function does |
| Session.FollowUpUsesStoredText | g_src/g_general/5_ask.py:143-148 | a stored answer is rewritten, quoting it and the original question; otherwise the original question is asked again over the stored context |
| Session.StructuralPathAnswer | g_src/g_general/5_ask.py:185-193 | the turn ends in an exception exactly when the structural handler raises; otherwise the log keeps the analysis, the structural path is taken exactly for a structural analysis, and its answer is the structural reply |
| Session.FallbackNeedsNoGeneration | g_src/g_general/5_ask.py:198-200 | with no hits the turn does not depend on the generator, and the remembered interaction has neither context nor answer |
| Session.RagContextCoversHits | g_src/g_general/5_ask.py:201-238 | a retrieval answer is generated over a context holding every hit's excerpt, with the preprocessed question and the chosen model |
| Session.Session.constructor | g_src/g_general/5_ask.py:76-87 | the loop starts with the chosen task's prompt, the chosen generator, no interaction and an empty log |
| Session.Session.Turn | g_src/g_general/5_ask.py:89-250 | "exit" stops the loop and changes nothing else; "/task" re-selects and forgets the interaction; a follow-up only appends its entry; a new question logs its turn and remembers it, or ends the loop when the structural handler raises |
| Session.Session.Exit | g_src/g_general/5_ask.py:92-98 | "exit" ends the loop |
| Session.Session.ChangeTask | g_src/g_general/5_ask.py:100-106 | "/task" installs the chosen task, its prompt and the chosen model, and forgets the stored interaction |
| Session.Session.Ask | g_src/g_general/5_ask.py:108-250 | any other input is a follow-up when it asks for one and a new question otherwise, with the outcome the specification function gives |
| Session.Session.FollowUp | g_src/g_general/5_ask.py:114-167 | the log grows by the follow-up entry, or not at all when the follow-up is abandoned |
| Session.Session.NewQuestion | g_src/g_general/5_ask.py:169-250 | the log grows by the turn's entry and the interaction becomes the turn's; when the structural handler raises, the loop ends with the interaction cleared and the log unchanged |
| Corpus.GeminiModels | g_src/g_general/config.py:61-64 | the Gemini client serves exactly the configured models other than "gpt" |
| Corpus.ModelTable | g_src/g_general/config.py:26-31 | the configured model keys are those of the model menu, and Gemini serves the router, the default generator and "pro" |
| Corpus.LexTotal | g_src/g_general/config.py:100 | Python's string order is total |
| Corpus.LexTrans | g_src/g_general/config.py:100 | Python's string order is transitive |
| Corpus.InsertName | g_src/g_general/config.py:100 | inserting a name into a sorted list adds exactly that name |
| Corpus.InsertNameSorted | g_src/g_general/config.py:100 | inserting a name keeps the list sorted |
| Corpus.SortNames | g_src/g_general/config.py:100 | `sorted(names)` is a permutation of the names |
| Corpus.SortNamesSorted | g_src/g_general/config.py:100 | the folders are visited in Python's string order |
| Corpus.FirstWithSuffix | g_src/g_general/config.py:107 | a file index found is in range |
| Corpus.FirstWithSuffixIs | g_src/g_general/config.py:107 | `next(...)` takes the first file, in listing order, whose name ends with the suffix; None when no file does |
| Corpus.Aggregate | g_src/g_general/config.py:99-121 | the merged summaries are a well-formed insertion-ordered dict |
| Corpus.AggregateNoneStays | g_src/g_general/config.py:99-121 | once a data file fails, start-up fails |
| Corpus.AggregateStamped | g_src/g_general/config.py:102-113 | every loaded structure carries the title and type of the registered folder it came from |
| Corpus.AggregateSummaries | g_src/g_general/config.py:116-120 | the summaries are merged in folder order, and each key keeps the value of its last entry |
| Corpus.AllChunksAppend | g_src/g_general/config.py:124-130 | loading two runs of folders concatenates their chunks, and fails if either fails |
| Corpus.FolderChunksIncluded | g_src/g_general/config.py:124-130 | every folder's chunks appear whole and in place, without de-duplication |
| Corpus.PromptPairs | g_src/g_general/config.py:74-82 | exactly the readable ".txt" files give a pair, keyed by the name without ".txt" |
| Corpus.PromptsLastWins | g_src/g_general/config.py:72-82 | each prompt key keeps the text of the last readable file giving it, and the keys are in order of first appearance |
| Corpus.PromptKeys | g_src/g_general/config.py:74-82 | a key has a prompt exactly when some readable ".txt" file gives it |
| Corpus.LoadPrompts | g_src/g_general/config.py:72-89 | the prompt loop builds the prompts of the specification; a missing folder gives none |
| Corpus.ConfigOf | g_src/g_general/config.py:50-142 | start-up succeeds only with both API keys non-empty, and the Gemini models never include "gpt" |
| Corpus.ReadFolder | g_src/g_general/config.py:101-121 | one structure folder contributes its first structure file, stamped, and the entries of its first summaries file |
| Corpus.LoadStructures | g_src/g_general/config.py:99-121 | the loop over the sorted folders loads what the specification aggregates |
| Corpus.AllChunksNoneStays | g_src/g_general/config.py:124-130 | once a chunk file fails, start-up fails |
| Corpus.ReadChunkFolder | g_src/g_general/config.py:125-130 | one chunk folder contributes the list of its first chunk file |
| Corpus.LoadChunks | g_src/g_general/config.py:123-131 | the loop over the sorted folders concatenates what the specification does |
| Corpus.AggregateStep | g_src/g_general/config.py:100-121 | one more folder appends its structures and merges its summary entries |
| Corpus.AllChunksStep | g_src/g_general/config.py:124-130 | one more folder appends its chunks |
| Corpus.LoadConfig | g_src/g_general/config.py:9-142 | start-up returns the configuration of the specification, or fails |
| Chunks.ArticleMetadataFields | c_processors/b_regcam/4_create_chunks.py:59-66 | the metadata holds the document's title and type and exactly the level titles the path has (at most three), with the None levels dropped |
| Chunks.ArticlePairs | c_processors/b_regcam/4_create_chunks.py:58-66 | one assignment per listed article |
| Chunks.ArticlePairsAt | c_processors/b_regcam/4_create_chunks.py:58-66 | the j-th assignment binds `str(article_j)` to the node's metadata |
| Chunks.MetadataPairsAppend | c_processors/b_regcam/4_create_chunks.py:54-69 | the assignments of a walk of two node lists are those of the first followed by those of the second |
| Chunks.LastListing | c_processors/b_regcam/4_create_chunks.py:54-69 | the last visit of the walk listing the article: it lists it and no later visit does |
| Chunks.ArticlePairsMap | c_processors/b_regcam/4_create_chunks.py:58-66 | one node binds the keys of its articles, and only those, to its metadata |
| Chunks.MetadataIsLastListing | c_processors/b_regcam/4_create_chunks.py:53-69 | an article is in the map exactly when some visit lists it, and it is bound to the metadata of the last such visit |
| Chunks.AddArticles | c_processors/b_regcam/4_create_chunks.py:58-66 | the inner loop adds the node's assignments to the map in order |
| Chunks.Traverse | c_processors/b_regcam/4_create_chunks.py:53-69 | `recursive_traverse` adds the assignments of the depth-first walk of the nodes, later ones overriding earlier ones |
| Chunks.VisitNode | c_processors/b_regcam/4_create_chunks.py:55-69 | one iteration adds the node's own articles and then its children's walk |
| Chunks.UnionAppend | c_processors/b_regcam/4_create_chunks.py:53-69 | adding two runs of assignments in turn adds their concatenation |
| Chunks.TraverseStep | c_processors/b_regcam/4_create_chunks.py:54-69 | the walk of one more node appends that node's assignments |
| Chunks.BuildMetadataMap | c_processors/b_regcam/4_create_chunks.py:45-73 | the method builds the metadata map of the specification |
| Chunks.MetadataMapSpec | c_processors/b_regcam/4_create_chunks.py:45-73 | an article is in the map exactly when some node lists it; it gets the metadata of the last such node of the walk, whose path ends with that node's title |
| Chunks.MetadataNeverEmpty | c_processors/b_regcam/4_create_chunks.py:50-51 | every metadata value carries the document's title and type ("N/D" when missing) |
| Chunks.TagPairs | c_processors/b_regcam/4_create_chunks.py:79-81 | one assignment per item, of its tags (or the empty list) to its "art_..._comma_..." key |
| Chunks.BuildTagsMap | c_processors/b_regcam/4_create_chunks.py:75-83 | the loop builds the map of the assignments, later ones overriding earlier ones |
| Chunks.TagsMapSpec | c_processors/b_regcam/4_create_chunks.py:79-81 | every item's key is bound, and an item with no later item of the same key decides its tags |
| Chunks.TagsMapKeys | c_processors/b_regcam/4_create_chunks.py:79-81 | a key is bound exactly when some item has it |
| Chunks.ChunkFor | c_processors/b_regcam/4_create_chunks.py:112-139 | a record gives a chunk exactly when its article has non-empty metadata; the chunk is the metadata overridden by the article, comma, text, keywords and tags fields |
| Chunks.ChunksBounded | c_processors/b_regcam/4_create_chunks.py:112-139 | at most one chunk per record |
| Chunks.ChunksAppend | c_processors/b_regcam/4_create_chunks.py:112-139 | the chunks keep the record order |
| Chunks.ChunksMembers | c_processors/b_regcam/4_create_chunks.py:112-139 | every chunk comes from a record, and every record with metadata contributes its chunk |
| Chunks.AssembleChunks | c_processors/b_regcam/4_create_chunks.py:108-139 | the assembly loop gives the chunks of the specification |
| Chunks.CreateChunks | c_processors/b_regcam/4_create_chunks.py:104-139 | the metadata map, then the tags map, then the chunks |
| Chunks.ChunkIffListed | c_processors/b_regcam/4_create_chunks.py:105-121 | with the built map, a record yields a chunk exactly when some node of the structure lists its article |
| Tags.Articles | c_processors/b_regcam/3_create_tags.py:107-108 | the article of each record, in record order (`comma.get("articolo")`) |
| Tags.GroupMembers | c_processors/b_regcam/3_create_tags.py:106-108 | an article's group holds exactly the records of that article |
| Tags.GroupStep | c_processors/b_regcam/3_create_tags.py:107-108 | one more record joins its article's group, and a new article is appended to the key list |
| Tags.UnlistedGroupEmpty | c_processors/b_regcam/3_create_tags.py:106-110 | an article that is not a key has no records |
| Tags.GroupInsertStep | c_processors/b_regcam/3_create_tags.py:107-108 | filing one more record keeps the key list and every group equal to those of the records seen so far |
| Tags.GroupByArticle | c_processors/b_regcam/3_create_tags.py:106-110 | the keys are the articles once each in order of first appearance, and each group holds its article's records in input order |
| Tags.ToProcess | c_processors/b_regcam/3_create_tags.py:124 | exactly the articles not yet processed, in order |
| Tags.ToProcessDistinct | c_processors/b_regcam/3_create_tags.py:110-124 | the articles to process are distinct, as the grouping's keys are |
| Tags.TagsOf | c_processors/b_regcam/3_create_tags.py:149-161 | decoded tags are always a list: a reply that decodes to something else becomes the empty list |
| Tags.AllTaggedCons | c_processors/b_regcam/3_create_tags.py:171-172 | a tagged paragraph in front of tagged paragraphs keeps them all tagged |
| Tags.TagCommiClean | c_processors/b_regcam/3_create_tags.py:143-174 | when no paragraph fails, every paragraph is tagged in order and the error counter ends at zero |
| Tags.ArticleClean | c_processors/b_regcam/3_create_tags.py:143-174 | an article with no failed paragraph has every paragraph tagged |
| Tags.TagCommiFails | c_processors/b_regcam/3_create_tags.py:162-169 | once a paragraph fails, the article stays failed |
| Tags.TagCommiLimit | c_processors/b_regcam/3_create_tags.py:162-167 | the consecutive-error counter never passes the limit of 5, and reaching it means a failure |
| Tags.TagCommiAnswers | c_processors/b_regcam/3_create_tags.py:143-174 | unless the limit is reached, the paragraph loop makes one call per paragraph and fails exactly when some call goes unanswered; when every call is answered it does not fail and the counter does not grow |
| Tags.TagArticle | c_processors/b_regcam/3_create_tags.py:138-174 | the paragraph loop of one article computes the state of the specification |
| Tags.RunArticlesSaved | c_processors/b_regcam/3_create_tags.py:136-186 | the article loop keeps the articles saved before, saves only articles to process, never passes the error limit, and writes the progress file once it saves an article |
| Tags.RunArticlesAppends | c_processors/b_regcam/3_create_tags.py:176-185 | the loop keeps the earlier records and appends whole articles only, each with every paragraph tagged; a failed article adds nothing |
| Tags.RunArticlesComplete | c_processors/b_regcam/3_create_tags.py:136-186 | a loop that stays under the error limit saves exactly the articles to process whose every paragraph the model tagged, in order (the reference filter `Kept`, paragraphs taking consecutive calls); one stopped by the limit saves a prefix of them |
| Tags.AllTaggedAppend | c_processors/b_regcam/3_create_tags.py:183 | tagged paragraphs followed by tagged paragraphs are the concatenation tagged |
| Tags.RunArticlesTagged | c_processors/b_regcam/3_create_tags.py:176-185 | the records appended are the paragraphs of the saved articles, article after article in saved order, each with its tags |
| Tags.KeptAll | c_processors/b_regcam/3_create_tags.py:136-186 | when the model always answers, every article to process is kept |
| Tags.RunArticlesAllAnswer | c_processors/b_regcam/3_create_tags.py:136-186 | when the model always answers, the loop saves every article to process, in order, never raises the counter, and writes the progress file once there is an article |
| Tags.AppendWhole | c_processors/b_regcam/3_create_tags.py:183 | appending a whole tagged article keeps the earlier records and tags every new one |
| Tags.StoppedRunKeepsProgressFile | c_processors/b_regcam/3_create_tags.py:188-195 | a run stopped by the error limit does not rename the progress file |
| Tags.TagRunSpec | c_processors/b_regcam/3_create_tags.py:112-195 | a run keeps the saved progress and appends the paragraphs of the articles it saves, each tagged, article after article; a run that stays under the error limit saves exactly the unprocessed articles whose every paragraph the model tagged, in order, and one stopped by the limit a prefix of them; with nothing to do it renames the progress file exactly when one exists and the final file does not; when the model always answers, every article to process is saved, the counter is zero and the file is renamed |
| Tags.ProcessArticles | c_processors/b_regcam/3_create_tags.py:134-186 | the article loop gives the run state of the specification |
| Tags.CreateTags | c_processors/b_regcam/3_create_tags.py:89-195 | the script gives the outcome of the specification |
| Embeddings.Or | c_processors/b_regcam/5_create_embeddings.py:56 | Python's `or`: the result is truthy iff either operand is, and is the first operand when that one is truthy |
| Embeddings.ContextTitle | c_processors/b_regcam/5_create_embeddings.py:56 | the most specific section title: level 3 if truthy, else level 2 if truthy, else level 1 with "" as default |
| Embeddings.Parts | c_processors/b_regcam/5_create_embeddings.py:58-68 | the text has one to three parts |
| Embeddings.TextToEmbedParts | c_processors/b_regcam/5_create_embeddings.py:54-70 | the text always contains the paragraph-text part; it starts with the topic part iff there is a section title, and ends with the keywords part iff there are keywords |
| Embeddings.ToProcess | c_processors/b_regcam/5_create_embeddings.py:123 | exactly the chunks whose article/paragraph id has no embedding yet |
| Embeddings.BatchAt | c_processors/b_regcam/5_create_embeddings.py:130-131 | a batch holds 1 to 100 consecutive items, and only the last batch can be short |
| Embeddings.Texts | c_processors/b_regcam/5_create_embeddings.py:132 | one text per chunk of the batch, in order |
| Embeddings.AttachKeepsChunks | c_processors/b_regcam/5_create_embeddings.py:145-147 | attaching vectors changes no chunk; the k-th vector goes to the k-th chunk, and chunks past the last vector get none |
| Embeddings.DetachAppend | c_processors/b_regcam/5_create_embeddings.py:149 | extending the results extends the chunks they hold |
| Embeddings.BatchItemsAppend | c_processors/b_regcam/5_create_embeddings.py:130-149 | the items of two runs of saved batches are the items of each, concatenated |
| Embeddings.RunBatchesSaved | c_processors/b_regcam/5_create_embeddings.py:130-160 | the batch loop keeps the batches saved before and saves only batches that start at a multiple of 100 past the loop's start |
| Embeddings.RunBatchesAppends | c_processors/b_regcam/5_create_embeddings.py:130-160 | the batch loop keeps the earlier results and appends exactly the items of the batches it saved, in batch order |
| Embeddings.AllFailing | c_processors/b_regcam/5_create_embeddings.py:155-159 | when every call fails nothing is saved, and the loop stops after 3 calls or after the last batch, whichever comes first |
| Embeddings.AllSucceeding | c_processors/b_regcam/5_create_embeddings.py:138-153 | when every call succeeds every item is saved in order, and the error counter is back at 0 |
| Embeddings.RunFromStart | c_processors/b_regcam/5_create_embeddings.py:128-160 | the loop started at the first item keeps the earlier results and appends the items of the batches it saved |
| Embeddings.EmbedRunSpec | c_processors/b_regcam/5_create_embeddings.py:109-160 | a run keeps the results already on disk and adds only chunks without an embedding, a whole batch at a time |
| Embeddings.EmbedBatches | c_processors/b_regcam/5_create_embeddings.py:128-160 | the batch loop computes the state of the specification |
| Embeddings.CreateEmbeddings | c_processors/b_regcam/5_create_embeddings.py:93-165 | the script computes the run of the specification |
| Segmentation.Slice | c_processors/a_cost/1_create_summaries.py:55-56 | Python's slice: equals the sequence slice whenever the bounds are in order and inside the text |
| Segmentation.ArticlePairs | c_processors/a_cost/1_create_summaries.py:52-57 | one (id, text) assignment per heading, keyed by that heading's captured id |
| Segmentation.ArticleKeys | c_processors/a_cost/1_create_summaries.py:52-57 | the assignments' keys are the headings' ids, in order |
| Segmentation.ExtractArticles | c_processors/a_cost/1_create_summaries.py:39-60 | the map filled heading by heading is the one of the specification; a failed conversion gives the empty map |
| Segmentation.ArticleMapSpec | c_processors/a_cost/1_create_summaries.py:51-58 | each id appears once, in order of first appearance; an id is present exactly when some heading captured it; it is bound to the text of its last heading |
| Segmentation.ArticleMapKeys | c_processors/a_cost/1_create_summaries.py:51-58 | the keys are the distinct heading ids, in order of first appearance |
| Segmentation.ArticleMapLast | c_processors/a_cost/1_create_summaries.py:57 | a later heading with the same id overwrites the text of an earlier one |
| Segmentation.ArticleTextWithin | c_processors/b_regcam/1_create_summaries.py:60-65 | an article's text is cut from between its own heading (its start, or its end in the a_cost layout) and the next heading; in the earlier layout of c_processors/b_regcam/old/00_summarize_and_keyword.py:103 it is the heading, a newline, then that text |
| Segmentation.StripWithin | c_processors/a_cost/1_create_summaries.py:56 | stripping a slice of the text gives a slice inside it |
| Segmentation.ArticleTextStartsWithHeading | c_processors/b_regcam/1_create_summaries.py:62-64 | when the text is taken from the heading on, an article's text begins with its heading |
| Keywords.LeafPairs | c_processors/a_cost/2_create_keywords.py:103 | one (article, title) pair per article of the leaf, in order, each carrying the leaf's title |
| Keywords.LeafPairsWin | c_processors/a_cost/2_create_keywords.py:103 | a leaf's pairs bind exactly its articles, each to its title |
| Keywords.LastWinsValues | c_processors/a_cost/2_create_keywords.py:103 | when all pairs carry the same title, every bound article maps to it |
| Keywords.TitlesLastLeaf | c_processors/a_cost/2_create_keywords.py:102-103 | an article is in the map iff some leaf lists it, and it maps to the title of the last such leaf in walk order |
| Keywords.NodeTitlesSpec | c_processors/a_cost/2_create_keywords.py:102-103 | the article-to-title map built from the leaf nodes: a shared article takes the title of the last leaf, in pre-order, that lists it |
| Keywords.Unfenced | c_processors/a_cost/2_create_keywords.py:128-129 | what is decoded: the whole reply without a fenced list, otherwise a bracketed list body that occurs in the reply |
| Keywords.UnfencedRoundTrip | c_processors/a_cost/2_create_keywords.py:128-129 | a list wrapped in a ```json fence is extracted unchanged |
| Keywords.AllEnrichedCons | c_processors/a_cost/2_create_keywords.py:151-156 | a record made for a paragraph, in front of records made for the rest, keeps them all made in order |
| Keywords.EnrichCommiSpec | c_processors/a_cost/2_create_keywords.py:131-157 | the paragraph loop keeps the records made before; when no call fails it adds one record per paragraph, in order, each carrying the article id, and makes one call per paragraph |
| Keywords.EnrichArticleSpec | c_processors/a_cost/2_create_keywords.py:126-168 | an article that did not fail holds one record per paragraph the model returned, each naming the article; at least one call is made |
| Keywords.RunArticlesSpec | c_processors/a_cost/2_create_keywords.py:107-168 | the article loop keeps the loaded records and appends only records of articles it saves, each pending (unprocessed, with text); the failed article is pending and the progress file is written iff something was saved |
| Keywords.RunArticlesComplete | c_processors/a_cost/2_create_keywords.py:107-168 | the loop works through the pending articles in text order: the ones saved, followed by the one that failed, are the first pending ones, and a loop without a failure saves every pending article |
| Keywords.BlocksForCons | c_processors/a_cost/2_create_keywords.py:166 | one more saved article puts its records in front of the records of the articles saved after it |
| Keywords.RunArticlesRecords | c_processors/a_cost/2_create_keywords.py:107-168 | the records appended are those of the saved articles, article by article in saved order: for each, one record per paragraph the model returned for its text |
| Keywords.FailedArticleLeavesNothing | c_processors/a_cost/2_create_keywords.py:159-168 | the article that stops the run has no record appended, since its records are dropped with it |
| Keywords.StoppedAfterSaved | c_processors/a_cost/2_create_keywords.py:107-168 | the article that failed is not among the ones saved |
| Keywords.NothingPendingNoCalls | c_processors/a_cost/2_create_keywords.py:108-117 | with every article already processed or without text, the loop makes no call and changes nothing |
| Keywords.RunOnSpec | c_processors/a_cost/2_create_keywords.py:92-172 | a run keeps the loaded records and appends only records of articles not processed before; it saves the pending articles (unprocessed, with text) in text order: all of them when none fails, otherwise those before the one that failed; a failure leaves the progress file in place; a completed run renames it iff it exists |
| Keywords.RunOnRecords | c_processors/a_cost/2_create_keywords.py:100-172 | the records a run adds to the loaded ones are those of the articles it saves, article by article in saved order, one per paragraph the model returned |
| Keywords.KeywordRunSpec | c_processors/a_cost/2_create_keywords.py:74-172 | the same for the whole script, over the articles cut from the converted text; it does nothing when no article was extracted |
| Keywords.KeywordRunRecords | c_processors/a_cost/2_create_keywords.py:74-172 | the same for the whole script: the loaded records followed by the saved articles' records, each from the model's split of the article's text |
| Keywords.RerunMakesNoCalls | c_processors/a_cost/2_create_keywords.py:100-172 | a rerun after every article with text was saved makes no call, saves nothing and renames the progress file |
| Keywords.EnrichParagraphs | c_processors/a_cost/2_create_keywords.py:131-157 | the paragraph loop computes the article state of the specification |
| Keywords.ProcessArticles | c_processors/a_cost/2_create_keywords.py:107-168 | the article loop computes the run state of the specification |
| Keywords.GenerateKeywords | c_processors/a_cost/2_create_keywords.py:74-176 | the script computes the outcome of the specification |
| Summaries.Parts | c_processors/a_cost/1_create_summaries.py:123-127 | at most one piece per article of the node |
| Summaries.PartsSpec | c_processors/a_cost/1_create_summaries.py:123-127 | a node's text has a piece for each of its articles with text, and no piece when none has text |
| Summaries.NodeTextBlank | c_processors/a_cost/1_create_summaries.py:123-131 | a node whose articles have no text gets an empty text; for the Constitution the text is blank exactly when none of its articles has text |
| Summaries.PartsNonEmptyHead | c_processors/a_cost/1_create_summaries.py:124 | every Constitution piece starts with its article label |
| Summaries.JoinStartsWithFirst | c_processors/a_cost/1_create_summaries.py:123 | a join begins with its first piece |
| Summaries.SummarizeKeeps | c_processors/a_cost/1_create_summaries.py:109-159 | summaries already present are never changed, and each new one is stored under the title of a visited node whose text was not blank |
| Summaries.SummarizeCounts | c_processors/b_regcam/1_create_summaries.py:115-127 | the counter never passes the test limit, and a model call is made only after the counter went up, so none is made once the limit is reached |
| Summaries.SummarizeAllKnown | c_processors/a_cost/1_create_summaries.py:115-118 | when every node's title already has a summary, the loop changes nothing, counts nothing and calls nothing |
| Summaries.SummarizeComplete | c_processors/a_cost/1_create_summaries.py:104-159 | without a limit and with a model that always answers, every node with non-blank text ends with a summary |
| Summaries.SummarizeNodes | c_processors/a_cost/1_create_summaries.py:108-159 | the loop over the nodes computes the state of the specification |
| Summaries.GenerateSummaries | c_processors/b_regcam/1_create_summaries.py:82-166 | the script computes the run of the specification, for either document |
| LegacyEnrichment.DigitRun | c_processors/b_regcam/old/00_summarize_and_keyword.py:137 | the leading run of digits: all digits, and the character after it is not one |
| LegacyEnrichment.LeadingNumber | c_processors/b_regcam/old/00_summarize_and_keyword.py:137 | a number exists exactly when the id starts with a digit; otherwise the match fails and the script crashes |
| LegacyEnrichment.SuffixSharesNumber | c_processors/b_regcam/old/00_summarize_and_keyword.py:137 | "15-bis" and "15" have the same number, 15 |
| LegacyEnrichment.ChapterParts | c_processors/b_regcam/old/00_summarize_and_keyword.py:123-124 | at most one text per article of the chapter |
| LegacyEnrichment.ChapterPartsNone | c_processors/b_regcam/old/00_summarize_and_keyword.py:123-124 | a chapter with none of its articles in the map is summarised from the empty text |
| LegacyEnrichment.ChapterPartsHas | c_processors/b_regcam/old/00_summarize_and_keyword.py:123-124 | the text of every article of the chapter found in the map is part of the chapter's text |
| LegacyEnrichment.SummarizeChaptersSpec | c_processors/b_regcam/old/00_summarize_and_keyword.py:120-130 | phase A never changes a summary already present; each new one is stored under a chapter's title and does not contain "INSUFFICIENTE" |
| LegacyEnrichment.SummarizeChaptersComplete | c_processors/b_regcam/old/00_summarize_and_keyword.py:120-130 | with replies that never say "INSUFFICIENTE", a phase A that does not crash leaves every chapter with a summary |
| LegacyEnrichment.ChapterOf | c_processors/b_regcam/old/00_summarize_and_keyword.py:145 | the title of a chapter listing the article; None only when no chapter lists it |
| LegacyEnrichment.ChapterOfFirst | c_processors/b_regcam/old/00_summarize_and_keyword.py:145 | `next(...)`: the title found is that of the first chapter listing the article; no earlier chapter lists it |
| LegacyEnrichment.WithText | c_processors/b_regcam/old/00_summarize_and_keyword.py:155-156 | at most the paragraphs given |
| LegacyEnrichment.AllEnrichedCons | c_processors/b_regcam/old/00_summarize_and_keyword.py:162-167 | a record made for a paragraph, in front of records made for the rest, keeps them all made in order |
| LegacyEnrichment.EnrichCommiSpec | c_processors/b_regcam/old/00_summarize_and_keyword.py:153-168 | the paragraph loop keeps earlier records and, when no call fails, adds one record per paragraph with text, in order, with the paragraph number defaulting to "1" |
| LegacyEnrichment.ArticleStepSpec | c_processors/b_regcam/old/00_summarize_and_keyword.py:139-173 | an article is worked on exactly when it is due (numbered above the last one saved and listed by a chapter); then at least one call is made and, without a crash, all its records name it |
| LegacyEnrichment.EnrichArticlesSpec | c_processors/b_regcam/old/00_summarize_and_keyword.py:139-173 | phase B keeps what was saved, saves only due articles, in the sorted order, appends records of saved articles only, and records the last article saved |
| LegacyEnrichment.SavedStep | c_processors/b_regcam/old/00_summarize_and_keyword.py:170 | saving one more article keeps the saved list a prefix chain and the last saved id up to date |
| LegacyEnrichment.AppendedStep | c_processors/b_regcam/old/00_summarize_and_keyword.py:171 | saving one more article appends only records of saved articles |
| LegacyEnrichment.ArticleStepRecords | c_processors/b_regcam/old/00_summarize_and_keyword.py:149-168 | an article worked on without a crash yields one record per paragraph with text of the model's split of its text |
| LegacyEnrichment.BlocksForCons | c_processors/b_regcam/old/00_summarize_and_keyword.py:171 | one more saved article puts its records in front of the records of the articles saved after it |
| LegacyEnrichment.EnrichArticlesRecords | c_processors/b_regcam/old/00_summarize_and_keyword.py:139-173 | phase B saves the due articles in the sorted order: all of them unless a call fails, and then a strict prefix of them; the records it appends are those of the saved articles, article by article, one per paragraph with text |
| LegacyEnrichment.NothingAboveBound | c_processors/b_regcam/old/00_summarize_and_keyword.py:140-141 | a rerun from an article whose number is at least every article's makes no call and changes nothing |
| LegacyEnrichment.SuffixSkippedOnResume | c_processors/b_regcam/old/00_summarize_and_keyword.py:140-141 | resuming after article "15" skips article "15-bis", which shares its number, even when "15-bis" was never saved |
| LegacyEnrichment.NoNumberCrashes | c_processors/b_regcam/old/00_summarize_and_keyword.py:140 | a last-saved id without a leading number crashes the run at the first article, before any call |
| LegacyEnrichment.PhaseBSpec | c_processors/b_regcam/old/00_summarize_and_keyword.py:136-176 | phase B keeps the saved records and summaries, appends only records of articles numbered above the last saved one, and the output file, when written, holds the progress records and every article had a number |
| LegacyEnrichment.PhaseBComplete | c_processors/b_regcam/old/00_summarize_and_keyword.py:136-176 | with every article and the last saved one numbered, the progress records are the saved records followed by those of a prefix of the due articles in the sorted order, and the output file is written exactly when that prefix is all of them |
| LegacyEnrichment.OfSortedArticle | c_processors/b_regcam/old/00_summarize_and_keyword.py:137-171 | a record of a saved article names an input article numbered above the last saved one |
| LegacyEnrichment.SortedByNumber | c_processors/b_regcam/old/00_summarize_and_keyword.py:137 | the articles are sorted stably by number: a permutation, in non-decreasing number order, with articles of one number in text order |
| LegacyEnrichment.EnrichmentRunSpec | c_processors/b_regcam/old/00_summarize_and_keyword.py:96-178 | a completed run writes the progress records as output; a saved progress file is never lost, and its records and summaries are never changed, only extended |
| LegacyEnrichment.SummarizeAll | c_processors/b_regcam/old/00_summarize_and_keyword.py:120-130 | phase A's loop computes the state of the specification |
| LegacyEnrichment.EnrichParagraphs | c_processors/b_regcam/old/00_summarize_and_keyword.py:153-168 | the paragraph loop computes the state of the specification |
| LegacyEnrichment.EnrichAll | c_processors/b_regcam/old/00_summarize_and_keyword.py:139-173 | phase B's loop computes the state of the specification |
| LegacyEnrichment.RunEnrichment | c_processors/b_regcam/old/00_summarize_and_keyword.py:96-178 | the script computes the outcome of the specification |
| LegacySegment.RomanRun | c_processors/b_regcam/old/1_segment_gemini.py:15 | the greedy `[IVXLCDM]+`: every counted character is a roman-numeral letter and the next one is not |
| LegacySegment.RomanRunAll | c_processors/b_regcam/old/1_segment_gemini.py:15 | a run of roman-numeral letters is taken whole |
| LegacySegment.CapoAt | c_processors/b_regcam/old/1_segment_gemini.py:15 | a match at a position captures a non-empty run of roman-numeral letters |
| LegacySegment.FirstCapo | c_processors/b_regcam/old/1_segment_gemini.py:15 | a match found is a non-empty run of roman-numeral letters |
| LegacySegment.FirstCapoSpec | c_processors/b_regcam/old/1_segment_gemini.py:15 | `re.search`: the match found is the one at the leftmost matching position, and None means no position matches |
| LegacySegment.ExtractRomanNumeral | c_processors/b_regcam/old/1_segment_gemini.py:14-16 | a numeral found is a non-empty run of roman-numeral letters |
| LegacySegment.ExtractRomanNumeralSpec | c_processors/b_regcam/old/1_segment_gemini.py:14-16 | the numeral is the one after the leftmost match of `CAPO` and whitespace in the upper-cased title; None exactly when the pattern matches nowhere |
| LegacySegment.NoCapoNoNumeral | c_processors/b_regcam/old/1_segment_gemini.py:14-16 | a title without the word "CAPO", in any case, has no numeral |
| LegacySegment.UpperKeeps | c_processors/b_regcam/old/1_segment_gemini.py:15 | upper-casing leaves text without lower-case letters unchanged |
| LegacySegment.ExtractFromHeading | c_processors/b_regcam/old/1_segment_gemini.py:14-16 | the heading "CAPO" followed by a numeral gives that numeral back |
| LegacySegment.ToRomanSpec | c_processors/b_regcam/old/1_segment_gemini.py:18-20 | the numbers 1 to 5 become roman numerals; every other number becomes its decimal digits (`str(n)`), which read back as the number |
| LegacySegment.ToRomanInjective | c_processors/b_regcam/old/1_segment_gemini.py:18-20 | distinct part numbers get distinct identifiers |
| LegacySegment.PartNumeralRoundTrip | c_processors/b_regcam/old/1_segment_gemini.py:14-20 | a heading built from a part number's numeral gives that numeral back |
| LegacySegment.CapoPairs | c_processors/b_regcam/old/1_segment_gemini.py:40-49 | one assignment per article of the chapter, in order, each with the chapter's metadata |
| LegacySegment.CapoPairsAre | c_processors/b_regcam/old/1_segment_gemini.py:40-49 | a chapter's assignments are exactly its articles paired with its metadata |
| LegacySegment.PartPairsAre | c_processors/b_regcam/old/1_segment_gemini.py:33-49 | a part's assignments are exactly its chapters' articles, each with its own chapter's metadata |
| LegacySegment.OutlinePairsAre | c_processors/b_regcam/old/1_segment_gemini.py:30-49 | the assignments are exactly the articles listed by some chapter, with that part's and chapter's metadata |
| LegacySegment.StructuralMapSpec | c_processors/b_regcam/old/1_segment_gemini.py:24-51 | the map binds exactly the articles listed by some chapter, each to the metadata of a chapter listing it, with the document type "testo_normativo" |
| LegacySegment.StructuralMapLastWins | c_processors/b_regcam/old/1_segment_gemini.py:41 | an article listed again by a later chapter takes the later chapter's metadata |
| LegacySegment.LastWinsSnoc | c_processors/b_regcam/old/1_segment_gemini.py:41 | one more assignment overwrites the key's earlier binding |
| LegacySegment.AddCapo | c_processors/b_regcam/old/1_segment_gemini.py:40-49 | the loop over a chapter's articles adds the chapter's assignments to the map, the later ones winning |
| LegacySegment.PartStep | c_processors/b_regcam/old/1_segment_gemini.py:33-49 | adding one more chapter's assignments gives the map of one more chapter |
| LegacySegment.AddPart | c_processors/b_regcam/old/1_segment_gemini.py:33-49 | the loop over a part's chapters adds the part's assignments to the map |
| LegacySegment.BuildStructuralMap | c_processors/b_regcam/old/1_segment_gemini.py:24-51 | the nested loops build the map of the specification |
| LegacySegment.DropNulls | c_processors/b_regcam/old/1_segment_gemini.py:88 | the dict keeps exactly the keys whose value is not None, with their values |
| LegacySegment.CleanComma | c_processors/b_regcam/old/1_segment_gemini.py:77 | a result exists exactly when the paragraph number (default "1") is a string, and it is that string with every "." removed; a value that is not a string crashes the script |
| LegacySegment.Kept | c_processors/b_regcam/old/1_segment_gemini.py:72-74 | at most the records given |
| LegacySegment.ChunkIsChunk | c_processors/b_regcam/old/1_segment_gemini.py:76-89 | a record whose article is in the map gives its chunk: the article's metadata and, of the record, the article id, the paragraph number without dots, the text (default "") and the keywords (default []), with every None value dropped and no other key |
| LegacySegment.AllChunksCons | c_processors/b_regcam/old/1_segment_gemini.py:89 | a chunk in front of the chunks of the rest keeps them all chunks of their records |
| LegacySegment.ChunkStep | c_processors/b_regcam/old/1_segment_gemini.py:89 | one more chunk keeps the earlier chunks and every chunk that of its record |
| LegacySegment.CleanFromSpec | c_processors/b_regcam/old/1_segment_gemini.py:69-89 | the loop crashes exactly when a kept record's paragraph number is not a string; otherwise it keeps the earlier chunks and makes one chunk per kept record, in order (the article's metadata and the record's fields, as for ChunkIsChunk), skipping records whose article is not in the map |
| LegacySegment.SegmentAndCleanSpec | c_processors/b_regcam/old/1_segment_gemini.py:53-94 | the script crashes exactly when a kept record's paragraph number is not a string; otherwise every record whose article is listed gives one chunk in order (its article's metadata and its own fields), the others none, each chunk carrying the document type "testo_normativo" |
| LegacySegment.CleanRecords | c_processors/b_regcam/old/1_segment_gemini.py:65-89 | the loop computes the chunks of the specification |
| OcrBlocks.KeptEntities | b_ocr/scripts/c_gianniti_lupo/04_create_structured_text.py:49 | only entities with a type, a text and a start index other than -1 are kept, in order |
| OcrBlocks.BlocksSpec | b_ocr/scripts/c_gianniti_lupo/04_create_structured_text.py:39-54 | the blocks are made exactly when no entity has an empty segment list (which raises and aborts the page); then there is one block per kept entity, in page order, with its stripped text |
| OcrBlocks.ByStartSpec | b_ocr/scripts/c_gianniti_lupo/04_create_structured_text.py:58 | the stable sort by start index is a permutation, in non-decreasing start order, keeping page order among equal starts |
| OcrBlocks.Project | b_ocr/scripts/c_gianniti_lupo/04_create_structured_text.py:61-64 | one output per block, with its type and text and without the start index |
| OcrBlocks.StructuredPageSpec | b_ocr/scripts/c_gianniti_lupo/04_create_structured_text.py:23-67 | a page without entities gives an empty list; otherwise it is written exactly when no entity has an empty segment list, with one output per kept entity in non-decreasing start order, and the sorted blocks are a permutation of the collected ones |
| OcrBlocks.StructuredPageClean | b_ocr/scripts/c_gianniti_lupo/04_create_structured_text.py:49-64 | every block written has a non-empty type and a stripped text |
| OcrBlocks.BlocksClean | b_ocr/scripts/c_gianniti_lupo/04_create_structured_text.py:49-53 | every collected block has a non-empty type and a stripped text |
| OcrBlocks.ByStartKeepsClean | b_ocr/scripts/c_gianniti_lupo/04_create_structured_text.py:58 | sorting keeps every block clean |
| OcrBlocks.ProjectClean | b_ocr/scripts/c_gianniti_lupo/04_create_structured_text.py:61-64 | dropping the start index keeps the type non-empty and the text stripped |
| OcrBlocks.StripIdempotent | b_ocr/scripts/c_gianniti_lupo/04_create_structured_text.py:52 | stripping a stripped text changes nothing |
| OcrBlocks.CollectBlocks | b_ocr/scripts/c_gianniti_lupo/04_create_structured_text.py:39-54 | the loop collects the blocks of the specification |
| OcrBlocks.ProcessPage | b_ocr/scripts/c_gianniti_lupo/04_create_structured_text.py:23-67 | processing a page gives the structured page of the specification |
| Newlines.JoinLines | c_processors/a_cost/00_create_structure.py:37 | the first substitution replaces characters one for one, so the length does not change |
| Newlines.RunLen | c_processors/a_cost/00_create_structure.py:38 | the leading run of newlines: every counted character is a newline and the next one is not |
| Newlines.JoinLinesSpec | c_processors/a_cost/00_create_structure.py:37 | after the first substitution no newline is isolated; each isolated newline becomes a space and every other newline stays |
| Newlines.CollapseToNewline | c_processors/a_cost/00_create_structure.py:38 | replacing each run of newlines by one newline leaves no two newlines in a row, and keeps whether the text starts with a newline |
| Newlines.CleanTextSpec | c_processors/a_cost/00_create_structure.py:35-39 | `clean_text` leaves no blank line and no whitespace at either end |
| Newlines.CollapseWithoutNewlines | c_processors/a_cost/00_create_structure.py:38 | a text without newlines is left as it is by the run collapse |
| Newlines.CleanTwiceHasNoNewline | c_processors/a_cost/00_create_structure.py:35-39 | cleaning twice removes every newline, so this `clean_text` is not idempotent |
| Newlines.JoinLinesSingles | c_processors/a_cost/00_create_structure.py:37 | without two newlines in a row, the first substitution removes every newline |
| Newlines.CollapseToBlankLines | c_processors/b_regcam/old/00_summarize_and_keyword.py:36 | on a text without isolated newlines, replacing runs by a blank line leaves every newline with exactly one newline beside it |
| Newlines.CleanTextBlankLinesSpec | c_processors/b_regcam/old/00_summarize_and_keyword.py:34-37 | the earlier `clean_text` leaves newlines only in blank lines of exactly two and no whitespace at either end |
| Newlines.CollapseKeepsBlankLines | c_processors/b_regcam/old/00_summarize_and_keyword.py:36 | text already in blank-line shape passes through the run collapse unchanged |
| Newlines.CleanTextBlankLinesIdempotent | c_processors/b_regcam/old/00_summarize_and_keyword.py:34-37 | the earlier `clean_text` is idempotent |

## Left out

- Language models, the router model, the embedder and the vector store are parameters. Each is a function from the call counter (and the request) to a reply, or None for a call that raised. Prompt wording is therefore not modelled.
- The JSON decoder is a parameter that returns None for text it cannot decode. Values are strings, integers, null, lists of strings and nested objects. Floats, booleans and lists of other values are not represented, and `str()` of a nested object is abbreviated.
- `pypandoc` conversion is an input: the converted text, or None for a failed conversion.
- The regular expressions that find article headings are not re-implemented. Their matches (start, end, captured id) are an input that is assumed in order and non-overlapping.
- The regular expressions stated exactly are the JSON fence, whole-word substitution, `\s*`, `\d+`, the roman-numeral run and the newline substitutions. `\s` and `strip()` use Python's full whitespace set, Unicode spaces included. `\w` is modelled on U+0000 to U+017F only: ASCII, Latin-1 and Latin Extended-A word characters, which covers Italian text. Word characters of other scripts and non-ASCII digits are not modelled, and `lower()`/`upper()` map ASCII letters only.
- Files are values. A progress file is absent, undecodable or decoded, and a run's outcome records what it saved, wrote or renamed. Directory listings are values too. Opening, writing and renaming files is not modelled.
- `print`, `time.sleep`, the start-up banners and the console prompts' wording have no effect on the state and are not modelled.
- `export_to_word` and the save prompt when the session exits are not modelled: `utils_exporter.py` is not part of this model.
- Client construction in `config.py` (OpenAI, Gemini, Qdrant, `.env` loading) is not modelled. Only the presence of the API keys is checked.
- The embedding vectors are opaque sequences of reals.
- Setting fields in place (`chunk['embedding'] = ...`, `comma_item['tags'] = ...`, `data['document_title'] = ...`) is modelled as building new records. Aliasing between the in-memory lists and the records already saved is not captured.
- Structure files are assumed well formed: every node has a title, an article list and children. The `KeyError` raised by a node or record missing a required key is not modelled.
- Chunks.OrUnknown: a `document_title` or `document_type` that is present but JSON null is treated as missing ("N/D"). In Python `.get` returns None, and the filter at `4_create_chunks.py:66` then drops the key from the metadata.
- Retriever.Bonus: scores are exact reals. Python adds the float 0.01 once per matching pair of keyword and query word, so float rounding in the sum and in the comparisons of the sort is not modelled.
- Retriever.Rerank: keywords held as a non-zero integer or as an object are read as no keywords (bonus 0). In Python an integer makes the loop raise, which the search's `except` turns into no hits, and an object is iterated by its keys.
- Embeddings.Keywords: truthy keywords that are an integer or an object are joined as no items. Python's `join` raises on an integer and joins an object's keys.
- Tags.ParentTitle: a `metadati` value that is not an object is read as an empty object, giving "N/D". Python raises `AttributeError` there, outside any `try`.
- LegacySegment.Meta: a title that is present but JSON null is written as "N/D". Python keeps the None, and the filter at `1_segment_gemini.py:88` then drops the key.
- LegacyEnrichment.CommiOf: the paragraph decoder is a parameter that returns records. A decoded list whose items are not objects, on which Python's loop would raise, is not represented.
- Keywords.KeywordRunSpec: a progress file that is not valid JSON makes the script raise. The model takes the progress file as either absent or decoded.
- OcrBlocks.StructuredPageSpec: a `startIndex` that is not numeric makes `int()` raise, and an entity type that is not a string is not represented. The model takes start indices as integers or missing, and types as strings or missing.
- OcrBlocks.ProcessPage: the outer `except` of the script writes nothing for a page that raises. The model returns None for that page and does not model the file write.
- Summaries.NodeTextBlank: the "blank exactly when no article has text" direction is proved for the Constitution's labelled pieces only. For the rulebook only "no article with text gives an empty text" is stated.
- Keywords.EnrichArticleSpec: the keywords stored are the decoder's output and are not constrained further.
- Embeddings.Parts: only the number of parts is stated here. Their content is stated by `Embeddings.TextToEmbedParts`.
- The other OCR scripts (upload, batch OCR, inspection printers, bounding-box ordering), the vector-store ingestion and deletion scripts, the migration and JSON-fixing scripts, and the test drivers are not modelled. They are service calls, float geometry or printing.
- Script copies repeating logic already modelled here are not modelled separately. These are the other `00_create_structure.py` files, the older `a_cost` enrichment scripts, the older chunk, tag and embedding scripts, and `old_da_buttare/`.
- Text.Strip: its own contract states only the shape of the result. That exactly the leading and trailing whitespace is removed is stated by `Text.StripSpec`, kept apart so that the many callers of `Strip` do not carry quantified facts they do not use.
- Text.NatToString: its own contract states only that the result is a run of digits. That the digits denote the number is stated by `Text.NatToStringValue`.
- Text.Dedup: its own contract states only the elements and their distinctness. The order of first occurrence is stated by `Text.DedupFirstOrder`.
- Resolver.Candidates: its own contract covers only the untargeted case. Order, multiplicity and membership under a target are stated by `Resolver.CandidatesOne`, `Resolver.CandidatesAppend` and `Resolver.CandidatesMembers`.
- LegacyEnrichment.ChapterOf: its own contract states only that some listing chapter is found. That it is the first one is stated by `LegacyEnrichment.ChapterOfFirst`.
- LegacySegment.FirstCapo: its own contract states only the shape of the match. That it is the leftmost match is stated by `LegacySegment.FirstCapoSpec`, and for `ExtractRomanNumeral` by `LegacySegment.ExtractRomanNumeralSpec`.
- LegacySegment.ExtractRomanNumeral: as for `FirstCapo`, the leftmost match is stated by `LegacySegment.ExtractRomanNumeralSpec`.
- The scripts replace `\r\n` with `\n` in the converted text before cutting it into articles (`a_cost/2_create_keywords.py:43`, `a_cost/1_create_summaries.py:43`, `b_regcam/1_create_summaries.py:43`). The converted text taken as input is the text after that replacement.
- Records are Dafny maps, so the order of the keys in a written JSON object (for example the chunk built at `1_segment_gemini.py:79-85`) is not represented. Only keys and values are.
- Tags.RunArticlesSaved: states only where the saved articles come from. Which articles are saved, in order, is stated by `Tags.RunArticlesComplete` and `Tags.RunArticlesAllAnswer`.
- Tags.RunArticlesAppends: states the appended records by count and tag key. Their content, article after article, is stated by `Tags.RunArticlesTagged`.
- Keywords.RunArticlesSpec: states only that saved articles are pending. That all pending articles are saved in text order is stated by `Keywords.RunArticlesComplete`, and the records of each saved article by `Keywords.RunArticlesRecords`.
- LegacyEnrichment.EnrichArticlesSpec: states only that saved articles are due. That the due articles are saved in order, all of them unless a call fails, and their records block by block, is stated by `LegacyEnrichment.EnrichArticlesRecords`.
- LegacyEnrichment.PhaseBSpec: states only where the appended records come from. Which articles phase B saves and when the output is written is stated by `LegacyEnrichment.PhaseBComplete`.
