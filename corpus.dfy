// Start-up loading (`load_config_and_clients`): the API keys, the system
// prompts, the document structures and section summaries of the registered
// sources, and the chunk lists. Directories are given as values: the names a
// listing returns and, for the entries that are directories, their files
// with the JSON each holds. Any failure while loading ends the program,
// which the model gives as None.
module Corpus {
  import opened Wrappers
  import opened Text
  import opened Json
  import opened OrderedMaps
  import opened Structure
  import Session

  // ---------------------------------------------------------------------
  // Fixed configuration

  /** The registered sources: folder name to document title and type. */
  const Registry: map<string, (string, string)> := map[
    "a_cost" := ("Costituzione della Repubblica Italiana", "costituzione"),
    "b_regcam" := ("Regolamento della Camera dei Deputati", "regolamento_parlamentare")]

  /** The model keys and model names, in order. */
  const Models: seq<(string, string)> := [
    ("router", "gemini-2.5-flash"), ("default_generator", "gemini-2.5-flash"),
    ("gpt", "gpt-4o-mini"), ("pro", "gemini-2.5-pro")]

  /** The models served through the Gemini client: all but "gpt", in order. */
  function GeminiModels(models: seq<(string, string)>): (r: seq<(string, string)>)
    ensures forall m :: m in r <==> m in models && m.0 != "gpt"
    ensures |r| <= |models|
  {
    if models == [] then []
    else if models[0].0 == "gpt" then GeminiModels(models[1..])
    else [models[0]] + GeminiModels(models[1..])
  }

  lemma ModelTable()
    ensures seq(|Models|, i requires 0 <= i < |Models| => Models[i].0) == Session.ModelKeys
    ensures GeminiModels(Models) == [Models[0], Models[1], Models[3]]
  {
  }

  // ---------------------------------------------------------------------
  // Sorted listings

  /** Python's ordering of strings: lexicographic on code points. */
  predicate LexLe(a: string, b: string)
    decreases |a|
  {
    a == [] || (b != [] && (a[0] < b[0] || (a[0] == b[0] && LexLe(a[1..], b[1..]))))
  }

  lemma {:induction false} LexTotal(a: string, b: string)
    ensures LexLe(a, b) || LexLe(b, a)
    decreases |a|
  {
    if a != [] && b != [] && a[0] == b[0] {
      LexTotal(a[1..], b[1..]);
    }
  }

  lemma {:induction false} LexTrans(a: string, b: string, c: string)
    requires LexLe(a, b) && LexLe(b, c)
    ensures LexLe(a, c)
    decreases |a|
  {
    if a != [] && b != [] && c != [] && a[0] == b[0] && b[0] == c[0] {
      LexTrans(a[1..], b[1..], c[1..]);
    }
  }

  predicate SortedNames(s: seq<string>) {
    forall i, j :: 0 <= i < j < |s| ==> LexLe(s[i], s[j])
  }

  function InsertName(x: string, s: seq<string>): (r: seq<string>)
    ensures multiset(r) == multiset(s) + multiset{x}
    ensures |r| == |s| + 1
  {
    if s == [] then [x]
    else if LexLe(x, s[0]) then [x] + s
    else
      assert s == [s[0]] + s[1..];
      [s[0]] + InsertName(x, s[1..])
  }

  lemma {:induction false} InsertNameSorted(x: string, s: seq<string>)
    requires SortedNames(s)
    ensures SortedNames(InsertName(x, s))
  {
    if s == [] {
    } else if LexLe(x, s[0]) {
      forall j | 0 <= j < |s| ensures LexLe(x, s[j]) {
        if j > 0 {
          LexTrans(x, s[0], s[j]);
        }
      }
    } else {
      LexTotal(x, s[0]);
      InsertNameSorted(x, s[1..]);
      var rest := InsertName(x, s[1..]);
      forall j | 0 <= j < |rest| ensures LexLe(s[0], rest[j]) {
        assert rest[j] in multiset(rest);
        if rest[j] != x {
          assert rest[j] in multiset(s[1..]);
          var k :| 0 <= k < |s[1..]| && s[1..][k] == rest[j];
          assert s[k + 1] == rest[j];
        }
      }
    }
  }

  /** `sorted(names)` */
  function SortNames(names: seq<string>): (r: seq<string>)
    ensures multiset(r) == multiset(names)
  {
    if names == [] then []
    else
      assert names == [names[0]] + names[1..];
      InsertName(names[0], SortNames(names[1..]))
  }

  /** The folders are visited in Python's string order. */
  lemma {:induction false} SortNamesSorted(names: seq<string>)
    ensures SortedNames(SortNames(names))
  {
    if names != [] {
      SortNamesSorted(names[1..]);
      InsertNameSorted(names[0], SortNames(names[1..]));
    }
  }

  // ---------------------------------------------------------------------
  // Data directories

  /** The JSON a data file holds, by the kind its name promises. */
  datatype Loaded =
    | StructureData(nodes: seq<Node>)
    | SummariesData(summaries: seq<(string, Value)>)
    | ChunkList(chunks: seq<Record>)

  /** A file of a source folder; None when it cannot be read or parsed. */
  datatype DataFile = DataFile(name: string, content: Option<Loaded>)

  /** A data directory: the names listed, and the files of those that are
      folders. */
  datatype Dir = Dir(names: seq<string>, folders: map<string, seq<DataFile>>)

  /** The first file, in listing order, whose name ends with `suffix`. */
  function FirstWithSuffix(files: seq<DataFile>, suffix: string): (r: Option<nat>)
    ensures r.Some? ==> r.value < |files|
  {
    if files == [] then None
    else if EndsWith(files[0].name, suffix) then Some(0)
    else match FirstWithSuffix(files[1..], suffix)
      case None => None
      case Some(k) => Some(k + 1)
  }

  /** Only the first matching file counts; None when no file matches. */
  lemma {:induction false} FirstWithSuffixIs(files: seq<DataFile>, suffix: string)
    ensures var r := FirstWithSuffix(files, suffix);
      && (r.Some? ==>
            && EndsWith(files[r.value].name, suffix)
            && forall j :: 0 <= j < r.value ==> !EndsWith(files[j].name, suffix))
      && (r.None? ==> forall j :: 0 <= j < |files| ==> !EndsWith(files[j].name, suffix))
  {
    if files != [] && !EndsWith(files[0].name, suffix) {
      FirstWithSuffixIs(files[1..], suffix);
      assert forall j :: 1 <= j < |files| ==> files[1..][j - 1] == files[j];
    }
  }

  /** What a structure folder adds: its stamped structure and its summary
      entries; nothing for an unregistered name or a non-folder; None when a
      file it reads fails. */
  function Contribution(name: string, dir: Dir): Option<(seq<Document>, seq<(string, Value)>)> {
    if name !in dir.folders || name !in Registry then Some(([], []))
    else
      var docs := StructureFrom(dir.folders[name], Registry[name]);
      var sums := SummariesFrom(dir.folders[name]);
      if docs.None? || sums.None? then None else Some((docs.value, sums.value))
  }

  /** The folder's structure stamped with the registry's title and type. */
  function StructureFrom(files: seq<DataFile>, meta: (string, string)): Option<seq<Document>> {
    match FirstWithSuffix(files, "_structure.json")
    case None => Some([])
    case Some(k) => match files[k].content
      case Some(StructureData(nodes)) => Some([Document(meta.0, meta.1, nodes)])
      case _ => None
  }

  /** The entries of the folder's summaries file. */
  function SummariesFrom(files: seq<DataFile>): Option<seq<(string, Value)>> {
    match FirstWithSuffix(files, "_summaries.json")
    case None => Some([])
    case Some(k) => match files[k].content
      case Some(SummariesData(pairs)) => Some(pairs)
      case _ => None
  }

  /** The structures and merged summaries of the folders `names`, in order. */
  function Aggregate(names: seq<string>, dir: Dir): (r: Option<(seq<Document>, Dict<string, Value>)>)
    ensures r.Some? ==> r.value.1.Valid()
  {
    if names == [] then Some(([], EmptyDict()))
    else match Aggregate(names[..|names| - 1], dir)
      case None => None
      case Some(acc) => match Contribution(names[|names| - 1], dir)
        case None => None
        case Some(c) => Some((acc.0 + c.0, PutAll(acc.1, c.1)))
  }

  /** The summary entries of the folders, in order (failures add nothing). */
  function SummaryPairs(names: seq<string>, dir: Dir): seq<(string, Value)> {
    if names == [] then []
    else
      var c := Contribution(names[|names| - 1], dir);
      SummaryPairs(names[..|names| - 1], dir) + (if c.Some? then c.value.1 else [])
  }

  lemma {:induction false} AggregateNoneStays(names: seq<string>, dir: Dir, n: nat)
    requires n <= |names| && Aggregate(names[..n], dir).None?
    ensures Aggregate(names, dir).None?
  {
    if n < |names| {
      assert names[..|names| - 1][..n] == names[..n];
      AggregateNoneStays(names[..|names| - 1], dir, n);
    } else {
      assert names[..n] == names;
    }
  }

  /** Every loaded structure is stamped with the title and type of the
      registered folder it came from. */
  lemma {:induction false} AggregateStamped(names: seq<string>, dir: Dir)
    requires Aggregate(names, dir).Some?
    ensures forall d :: d in Aggregate(names, dir).value.0 ==>
      exists name ::
        && name in names && name in dir.folders && name in Registry
        && d.title == Registry[name].0 && d.docType == Registry[name].1
  {
    if names != [] {
      var init := names[..|names| - 1];
      AggregateStamped(init, dir);
      forall d | d in Aggregate(names, dir).value.0
        ensures exists name ::
          && name in names && name in dir.folders && name in Registry
          && d.title == Registry[name].0 && d.docType == Registry[name].1
      {
        if d in Aggregate(init, dir).value.0 {
          var name :| name in init && name in dir.folders && name in Registry
            && d.title == Registry[name].0 && d.docType == Registry[name].1;
          assert name in names;
        } else {
          assert names[|names| - 1] in names;
        }
      }
    }
  }

  /** The summaries are merged in folder order: each key has the value of the
      last entry for it. */
  lemma {:induction false} AggregateSummaries(names: seq<string>, dir: Dir)
    requires Aggregate(names, dir).Some?
    ensures Aggregate(names, dir).value.1 == FromPairs(SummaryPairs(names, dir))
    ensures Aggregate(names, dir).value.1.values == LastWins(SummaryPairs(names, dir))
  {
    if names != [] {
      var init := names[..|names| - 1];
      AggregateSummaries(init, dir);
      PutAllAppend(EmptyDict(), SummaryPairs(init, dir), Contribution(names[|names| - 1], dir).value.1);
    }
    PutAllValues(EmptyDict<string, Value>(), SummaryPairs(names, dir));
  }

  /** A chunk folder's list; nothing for a non-folder or a folder without a
      chunk file; None when the chunk file fails. */
  function ChunkContribution(name: string, dir: Dir): Option<seq<Record>> {
    if name !in dir.folders then Some([])
    else
      var files := dir.folders[name];
      match FirstWithSuffix(files, "_chunks.json")
      case None => Some([])
      case Some(k) => match files[k].content
        case Some(ChunkList(chunks)) => Some(chunks)
        case _ => None
  }

  /** The chunk lists of the folders `names`, concatenated in order. */
  function AllChunks(names: seq<string>, dir: Dir): Option<seq<Record>> {
    if names == [] then Some([])
    else match AllChunks(names[..|names| - 1], dir)
      case None => None
      case Some(acc) => match ChunkContribution(names[|names| - 1], dir)
        case None => None
        case Some(c) => Some(acc + c)
  }

  lemma {:induction false} AllChunksAppend(a: seq<string>, b: seq<string>, dir: Dir)
    ensures AllChunks(a + b, dir) == match AllChunks(a, dir)
      case None => None
      case Some(x) => match AllChunks(b, dir)
        case None => None
        case Some(y) => Some(x + y)
  {
    if b == [] {
      assert a + b == a;
      if AllChunks(a, dir).Some? {
        assert AllChunks(a, dir).value + [] == AllChunks(a, dir).value;
      }
    } else {
      AllChunksAppend(a, b[..|b| - 1], dir);
      assert (a + b)[..|a + b| - 1] == a + b[..|b| - 1];
      if AllChunks(a, dir).Some? && AllChunks(b[..|b| - 1], dir).Some? {
        var x := AllChunks(a, dir).value;
        var y := AllChunks(b[..|b| - 1], dir).value;
        match ChunkContribution(b[|b| - 1], dir)
        case None =>
        case Some(c) => assert x + y + c == x + (y + c);
      }
    }
  }

  /** Every folder's chunks appear whole, in place, without de-duplication. */
  lemma FolderChunksIncluded(names: seq<string>, dir: Dir, i: nat)
    requires i < |names| && AllChunks(names, dir).Some?
    ensures ChunkContribution(names[i], dir).Some?
    ensures exists before, after ::
      AllChunks(names, dir).value == before + ChunkContribution(names[i], dir).value + after
  {
    var front := names[..i];
    var back := names[i + 1..];
    assert names == front + ([names[i]] + back);
    AllChunksAppend(front, [names[i]] + back, dir);
    AllChunksAppend([names[i]], back, dir);
    assert AllChunks([names[i]], dir) == ChunkContribution(names[i], dir) by {
      assert [names[i]][..0] == [];
      if ChunkContribution(names[i], dir).Some? {
        assert [] + ChunkContribution(names[i], dir).value == ChunkContribution(names[i], dir).value;
      }
    }
    var x := AllChunks(front, dir).value;
    var c := ChunkContribution(names[i], dir).value;
    var y := AllChunks(back, dir).value;
    assert AllChunks(names, dir).value == x + c + y;
  }

  // ---------------------------------------------------------------------
  // Prompts

  /** A file of the prompts folder; None when it cannot be read. */
  datatype PromptFile = PromptFile(name: string, text: Option<string>)

  predicate IsPrompt(f: PromptFile) {
    EndsWith(f.name, ".txt") && f.text.Some?
  }

  /** The prompt key: the name with ".txt" removed. */
  function PromptKey(name: string): string {
    ReplaceAll(name, ".txt", "")
  }

  /** The readable ".txt" files as (key, text) pairs, in listing order. */
  function PromptPairs(files: seq<PromptFile>): (r: seq<(string, string)>)
    ensures forall p :: p in r <==> exists f :: f in files && IsPrompt(f) && p == (PromptKey(f.name), f.text.value)
  {
    if files == [] then []
    else
      var f := files[|files| - 1];
      var init := files[..|files| - 1];
      assert files == init + [f];
      var rest := PromptPairs(init);
      if IsPrompt(f) then rest + [(PromptKey(f.name), f.text.value)] else rest
  }

  /** The prompts: none when the folder is missing. */
  function Prompts(folder: Option<seq<PromptFile>>): Dict<string, string> {
    match folder
    case None => EmptyDict()
    case Some(files) => FromPairs(PromptPairs(files))
  }

  /** A prompt keeps the text of the last readable ".txt" file giving its
      key, and the keys are in order of first appearance. */
  lemma PromptsLastWins(files: seq<PromptFile>)
    ensures Prompts(Some(files)).Valid()
    ensures Prompts(Some(files)).values == LastWins(PromptPairs(files))
    ensures Prompts(Some(files)).keys == NewKeys([], PairKeys(PromptPairs(files)))
  {
    var ps := PromptPairs(files);
    PutAllValues(EmptyDict<string, string>(), ps);
    PutAllKeys(EmptyDict<string, string>(), ps);
    assert [] + NewKeys([], PairKeys(ps)) == NewKeys([], PairKeys(ps));
  }

  /** A key has a prompt exactly when some readable ".txt" file gives it. */
  lemma PromptKeys(files: seq<PromptFile>, k: string)
    ensures k in Prompts(Some(files)).values <==> exists f :: f in files && IsPrompt(f) && PromptKey(f.name) == k
  {
    var ps := PromptPairs(files);
    PromptsLastWins(files);
    LastWinsKeys(ps);
    if k in LastWins(ps) {
      var j :| 0 <= j < |ps| && ps[j].0 == k;
      assert ps[j] in ps;
    }
    if exists f :: f in files && IsPrompt(f) && PromptKey(f.name) == k {
      var f :| f in files && IsPrompt(f) && PromptKey(f.name) == k;
      var p := (PromptKey(f.name), f.text.value);
      assert p in ps;
      var j :| 0 <= j < |ps| && ps[j] == p;
      assert ps[j].0 == k;
    }
  }

  /** Reads the prompts folder; unreadable files are skipped. */
  method LoadPrompts(folder: Option<seq<PromptFile>>) returns (prompts: Dict<string, string>)
    ensures prompts == Prompts(folder)
  {
    prompts := EmptyDict();
    if folder.None? {
      return;
    }
    var files := folder.value;
    var i := 0;
    while i < |files|
      invariant 0 <= i <= |files|
      invariant prompts == FromPairs(PromptPairs(files[..i]))
    {
      var f := files[i];
      assert files[..i + 1][..i] == files[..i];
      if EndsWith(f.name, ".txt") {
        if f.text.Some? {
          var ps := PromptPairs(files[..i]);
          assert (ps + [(PromptKey(f.name), f.text.value)])[..|ps|] == ps;
          prompts := prompts.Put(PromptKey(f.name), f.text.value);
        }
      }
      i := i + 1;
    }
    assert files[..|files|] == files;
  }

  // ---------------------------------------------------------------------
  // The whole start-up

  /** The API keys read from the environment. */
  datatype Env = Env(openaiKey: Option<string>, geminiKey: Option<string>)

  /** What start-up hands to the loop. */
  datatype Config = Config(prompts: Dict<string, string>, geminiModels: seq<(string, string)>,
                           structures: seq<Document>, summaries: Dict<string, Value>, chunks: seq<Record>)

  /** Start-up; None when a key is missing or empty, a data directory is
      missing, or a data file fails. */
  function ConfigOf(env: Env, promptFolder: Option<seq<PromptFile>>, structured: Option<Dir>, chunkDir: Option<Dir>)
    : (r: Option<Config>)
    ensures r.Some? ==> env.openaiKey.Some? && env.openaiKey.value != "" && env.geminiKey.Some? && env.geminiKey.value != ""
    ensures r.Some? ==> forall m :: m in r.value.geminiModels ==> m.0 != "gpt"
  {
    if env.openaiKey.None? || env.openaiKey.value == "" || env.geminiKey.None? || env.geminiKey.value == "" then None
    else if structured.None? || chunkDir.None? then None
    else match Aggregate(SortNames(structured.value.names), structured.value)
      case None => None
      case Some(loaded) => match AllChunks(SortNames(chunkDir.value.names), chunkDir.value)
        case None => None
        case Some(chunks) => Some(Config(Prompts(promptFolder), GeminiModels(Models), loaded.0, loaded.1, chunks))
  }

  /** Reads one structure folder: its first structure file, stamped, and
      the entries of its first summaries file. */
  method ReadFolder(name: string, dir: Dir) returns (c: Option<(seq<Document>, seq<(string, Value)>)>)
    ensures c == Contribution(name, dir)
  {
    var found: seq<Document> := [];
    var pairs: seq<(string, Value)> := [];
    if name in dir.folders && name in Registry {
      var meta := Registry[name];
      var files := dir.folders[name];
      var structure := FirstWithSuffix(files, "_structure.json");
      if structure.Some? {
        var content := files[structure.value].content;
        if content.None? || !content.value.StructureData? {
          return None;
        }
        found := [Document(meta.0, meta.1, content.value.nodes)];
      }
      var summaries := FirstWithSuffix(files, "_summaries.json");
      if summaries.Some? {
        var content := files[summaries.value].content;
        if content.None? || !content.value.SummariesData? {
          return None;
        }
        pairs := content.value.summaries;
      }
    }
    return Some((found, pairs));
  }

  /** Visits the structure folders in sorted order. */
  method LoadStructures(dir: Dir) returns (r: Option<(seq<Document>, Dict<string, Value>)>)
    ensures r == Aggregate(SortNames(dir.names), dir)
  {
    var names := SortNames(dir.names);
    var docs: seq<Document> := [];
    var sums: Dict<string, Value> := EmptyDict();
    var i := 0;
    while i < |names|
      invariant 0 <= i <= |names|
      invariant Aggregate(names[..i], dir) == Some((docs, sums))
    {
      var c := ReadFolder(names[i], dir);
      AggregateStep(names, dir, i);
      if c.None? {
        AggregateNoneStays(names, dir, i + 1);
        return None;
      }
      docs := docs + c.value.0;
      sums := PutAll(sums, c.value.1);
      i := i + 1;
    }
    assert names[..|names|] == names;
    return Some((docs, sums));
  }

  lemma {:induction false} AllChunksNoneStays(names: seq<string>, dir: Dir, n: nat)
    requires n <= |names| && AllChunks(names[..n], dir).None?
    ensures AllChunks(names, dir).None?
  {
    if n < |names| {
      assert names[..|names| - 1][..n] == names[..n];
      AllChunksNoneStays(names[..|names| - 1], dir, n);
    } else {
      assert names[..n] == names;
    }
  }

  /** Reads one chunk folder: the list of its first chunk file. */
  method ReadChunkFolder(name: string, dir: Dir) returns (c: Option<seq<Record>>)
    ensures c == ChunkContribution(name, dir)
  {
    if name in dir.folders {
      var files := dir.folders[name];
      var chunkFile := FirstWithSuffix(files, "_chunks.json");
      if chunkFile.Some? {
        var content := files[chunkFile.value].content;
        if content.None? || !content.value.ChunkList? {
          return None;
        }
        return Some(content.value.chunks);
      }
    }
    return Some([]);
  }

  /** Concatenates the chunk lists of every folder, in sorted order. */
  method LoadChunks(dir: Dir) returns (r: Option<seq<Record>>)
    ensures r == AllChunks(SortNames(dir.names), dir)
  {
    var names := SortNames(dir.names);
    var chunks: seq<Record> := [];
    var i := 0;
    while i < |names|
      invariant 0 <= i <= |names|
      invariant AllChunks(names[..i], dir) == Some(chunks)
    {
      var list := ReadChunkFolder(names[i], dir);
      AllChunksStep(names, dir, i);
      if list.None? {
        AllChunksNoneStays(names, dir, i + 1);
        return None;
      }
      chunks := chunks + list.value;
      i := i + 1;
    }
    assert names[..|names|] == names;
    return Some(chunks);
  }

  lemma AggregateStep(names: seq<string>, dir: Dir, i: nat)
    requires i < |names|
    ensures Aggregate(names[..i + 1], dir) ==
      (if Aggregate(names[..i], dir).None? || Contribution(names[i], dir).None? then None
       else Some((Aggregate(names[..i], dir).value.0 + Contribution(names[i], dir).value.0,
                  PutAll(Aggregate(names[..i], dir).value.1, Contribution(names[i], dir).value.1))))
  {
    assert names[..i + 1][..i] == names[..i];
  }

  lemma AllChunksStep(names: seq<string>, dir: Dir, i: nat)
    requires i < |names|
    ensures AllChunks(names[..i + 1], dir) ==
      (if AllChunks(names[..i], dir).None? || ChunkContribution(names[i], dir).None? then None
       else Some(AllChunks(names[..i], dir).value + ChunkContribution(names[i], dir).value))
  {
    assert names[..i + 1][..i] == names[..i];
  }

  method LoadConfig(env: Env, promptFolder: Option<seq<PromptFile>>, structured: Option<Dir>, chunkDir: Option<Dir>)
    returns (r: Option<Config>)
    ensures r == ConfigOf(env, promptFolder, structured, chunkDir)
  {
    if env.openaiKey.None? || env.openaiKey.value == "" || env.geminiKey.None? || env.geminiKey.value == "" {
      return None;
    }
    var gemini := GeminiModels(Models);
    var prompts := LoadPrompts(promptFolder);
    if structured.None? {
      return None;
    }
    var loaded := LoadStructures(structured.value);
    if loaded.None? {
      return None;
    }
    if chunkDir.None? {
      return None;
    }
    var chunks := LoadChunks(chunkDir.value);
    if chunks.None? {
      return None;
    }
    return Some(Config(prompts, gemini, loaded.value.0, loaded.value.1, chunks.value));
  }
}
