// The earlier chunk builder of the Chamber rulebook
// (`b_regcam/old/1_segment_gemini.py`): a structural map from each article
// listed in the structure file to the metadata of its part and chapter,
// and the enriched records turned into chunks carrying that metadata, with
// the paragraph number cleaned of dots and the null fields dropped.
module LegacySegment {
  import opened Wrappers
  import opened Text
  import opened Json
  import opened JsonExtract
  import opened OrderedMaps

  // ---------------------------------------------------------------------
  // Roman numerals

  const CapoWord := "CAPO"

  predicate IsRomanLetter(c: char) {
    c == 'I' || c == 'V' || c == 'X' || c == 'L' || c == 'C' || c == 'D' || c == 'M'
  }

  /** The length of the leading run of roman-numeral letters. */
  function RomanRun(s: string): (n: nat)
    ensures n <= |s|
    ensures forall i :: 0 <= i < n ==> IsRomanLetter(s[i])
    ensures n < |s| ==> !IsRomanLetter(s[n])
  {
    if s != [] && IsRomanLetter(s[0]) then 1 + RomanRun(s[1..]) else 0
  }

  lemma {:induction false} RomanRunAll(s: string)
    requires forall i :: 0 <= i < |s| ==> IsRomanLetter(s[i])
    ensures RomanRun(s) == |s|
  {
    if s != [] {
      RomanRunAll(s[1..]);
    }
  }

  /** The group captured by `CAPO\s+([IVXLCDM]+)` matched at `p`, if the
      pattern matches there (both repetitions are greedy, and giving back
      whitespace cannot produce a letter, so this is the only match). */
  function CapoAt(u: string, p: nat): (r: Option<string>)
    ensures r.Some? ==> r.value != [] && forall i :: 0 <= i < |r.value| ==> IsRomanLetter(r.value[i])
  {
    if !OccursAt(CapoWord, u, p) then None
    else
      var q := p + |CapoWord|;
      var w := WsLen(u[q..]);
      if w == 0 then None
      else
        var n := RomanRun(u[q + w..]);
        if n == 0 then None else Some(u[q + w..q + w + n])
  }

  /** `re.search`: the match at the leftmost position from `p` on. */
  function FirstCapo(u: string, p: nat): (r: Option<string>)
    ensures r.Some? ==> r.value != [] && forall i :: 0 <= i < |r.value| ==> IsRomanLetter(r.value[i])
    decreases |u| - p
  {
    if p > |u| then None
    else if CapoAt(u, p).Some? then CapoAt(u, p)
    else FirstCapo(u, p + 1)
  }

  /** The match found is the one at the leftmost matching position `k` from
      `p` on; None means that the pattern matches at no position from `p` on. */
  lemma {:induction false} FirstCapoSpec(u: string, p: nat) returns (k: nat)
    ensures FirstCapo(u, p).Some? ==>
      && p <= k <= |u| && CapoAt(u, k) == FirstCapo(u, p)
      && forall j :: p <= j < k ==> CapoAt(u, j).None?
    ensures FirstCapo(u, p).None? ==> forall j :: p <= j ==> CapoAt(u, j).None?
    decreases |u| - p
  {
    if p > |u| {
      k := p;
      forall j | p <= j ensures CapoAt(u, j).None? {
        assert !OccursAt(CapoWord, u, j);
      }
    } else if CapoAt(u, p).Some? {
      k := p;
    } else {
      k := FirstCapoSpec(u, p + 1);
      var r := FirstCapo(u, p + 1);
      assert FirstCapo(u, p) == r;
      forall j | p <= j && (r.Some? ==> j < k) ensures CapoAt(u, j).None? {
        if j > p {
          assert p + 1 <= j;
        }
      }
    }
  }

  /** `extract_roman_numeral`: the numeral after "CAPO" and whitespace in
      the upper-cased title, None when there is none. */
  function ExtractRomanNumeral(title: string): (r: Option<string>)
    ensures r.Some? ==> r.value != [] && forall i :: 0 <= i < |r.value| ==> IsRomanLetter(r.value[i])
  {
    FirstCapo(Upper(title), 0)
  }
  /** The numeral extracted is the one after the leftmost `CAPO` of the
      upper-cased title that the pattern matches; None when it matches nowhere. */
  lemma ExtractRomanNumeralSpec(title: string) returns (k: nat)
    ensures ExtractRomanNumeral(title).Some? ==>
      && k <= |title| && CapoAt(Upper(title), k) == ExtractRomanNumeral(title)
      && forall j :: 0 <= j < k ==> CapoAt(Upper(title), j).None?
    ensures ExtractRomanNumeral(title).None? ==> forall j :: 0 <= j ==> CapoAt(Upper(title), j).None?
  {
    k := FirstCapoSpec(Upper(title), 0);
  }

  /** A title without the word "CAPO" has no numeral. */
  lemma NoCapoNoNumeral(title: string)
    requires forall k :: !OccursAt(CapoWord, Upper(title), k)
    ensures ExtractRomanNumeral(title) == None
  {
    var k := ExtractRomanNumeralSpec(title);
  }

  /** Upper-casing leaves upper-case text as it is. */
  lemma UpperKeeps(s: string)
    requires forall i :: 0 <= i < |s| ==> !IsAsciiLower(s[i])
    ensures Upper(s) == s
  {
  }

  /** A chapter heading "CAPO <numeral>" gives back its numeral. */
  lemma ExtractFromHeading(numeral: string)
    requires numeral != [] && forall i :: 0 <= i < |numeral| ==> IsRomanLetter(numeral[i])
    ensures ExtractRomanNumeral(CapoWord + " " + numeral) == Some(numeral)
  {
    var u := CapoWord + " " + numeral;
    UpperKeeps(u);
    assert OccursAt(CapoWord, u, 0);
    assert u[4..] == " " + numeral;
    assert WsLen(u[4..]) == 1 by {
      assert u[4..][1..] == numeral;
    }
    assert u[5..] == numeral;
    RomanRunAll(numeral);
    assert u[5..5 + |numeral|] == numeral;
    assert CapoAt(u, 0) == Some(numeral);
  }

  /** `to_roman`: I to V for 1 to 5, the decimal digits otherwise. */
  function ToRoman(n: nat): string {
    if n == 1 then "I" else if n == 2 then "II" else if n == 3 then "III"
    else if n == 4 then "IV" else if n == 5 then "V"
    else NatToString(n)
  }

  /** The first five numbers become roman numerals, every other number its
      decimal digits, which read back as the number. */
  lemma ToRomanSpec(n: nat)
    ensures 1 <= n <= 5 ==> ToRoman(n) != [] && forall i :: 0 <= i < |ToRoman(n)| ==> IsRomanLetter(ToRoman(n)[i])
    ensures !(1 <= n <= 5) ==> ToRoman(n) != [] && forall i :: 0 <= i < |ToRoman(n)| ==> IsDigit(ToRoman(n)[i])
    ensures !(1 <= n <= 5) ==> ToRoman(n) == NatToString(n) && DigitsValue(ToRoman(n)) == n
  {
    if !(1 <= n <= 5) {
      NatToStringValue(n);
    }
  }

  /** Distinct part numbers get distinct identifiers. */
  lemma ToRomanInjective(m: nat, n: nat)
    ensures ToRoman(m) == ToRoman(n) ==> m == n
  {
    ToRomanSpec(m);
    ToRomanSpec(n);
  }

  /** A chapter titled after a part number in the `to_roman` style gives
      that numeral back. */
  lemma PartNumeralRoundTrip(p: nat)
    requires 1 <= p <= 5
    ensures ExtractRomanNumeral(CapoWord + " " + ToRoman(p)) == Some(ToRoman(p))
  {
    ToRomanSpec(p);
    ExtractFromHeading(ToRoman(p));
  }

  // ---------------------------------------------------------------------
  // The structural map

  /** A chapter (`capo`) of the structure file: its title and its articles. */
  datatype Capo = Capo(title: string, articles: seq<Value>)

  /** A part (`parte`): its title (None when absent) and its chapters. */
  datatype Part = Part(title: Option<string>, chapters: seq<Capo>)

  /** The structure file: the document title (None when absent) and the parts. */
  datatype Outline = Outline(title: Option<string>, parts: seq<Part>)

  const DocumentType := "testo_normativo"

  /** The metadata of the articles of chapter `capo` of part number `p`. */
  function Meta(doc: Outline, p: nat, part: Part, capo: Capo): Record {
    var numeral := ExtractRomanNumeral(capo.title);
    map["documento_titolo" := Str(doc.title.GetOr("N/D")),
        "document_type" := Str(DocumentType),
        "parte_titolo" := Str(part.title.GetOr("N/D")),
        "parte_id_roman" := Str(ToRoman(p)),
        "capo_titolo" := Str(capo.title),
        "capo_id_roman" := if numeral.Some? then Str(numeral.value) else Null]
  }

  /** The assignments of one chapter, in article order. */
  function CapoPairs(doc: Outline, p: nat, part: Part, capo: Capo): (ps: seq<(Value, Record)>)
    ensures |ps| == |capo.articles|
    ensures forall i :: 0 <= i < |ps| ==> ps[i] == (capo.articles[i], Meta(doc, p, part, capo))
  {
    seq(|capo.articles|, i requires 0 <= i < |capo.articles| => (capo.articles[i], Meta(doc, p, part, capo)))
  }

  /** The assignments of the first `n` chapters of part number `p`. */
  function PartPairs(doc: Outline, p: nat, part: Part, n: nat): seq<(Value, Record)>
    requires n <= |part.chapters|
  {
    if n == 0 then [] else PartPairs(doc, p, part, n - 1) + CapoPairs(doc, p, part, part.chapters[n - 1])
  }

  /** The assignments of the first `n` parts, numbered from 1. */
  function OutlinePairs(doc: Outline, n: nat): seq<(Value, Record)>
    requires n <= |doc.parts|
  {
    if n == 0 then []
    else OutlinePairs(doc, n - 1) + PartPairs(doc, n, doc.parts[n - 1], |doc.parts[n - 1].chapters|)
  }

  /** `costruisci_mappa_strutturale` */
  function StructuralMap(doc: Outline): map<Value, Record> {
    LastWins(OutlinePairs(doc, |doc.parts|))
  }

  /** The article `a` is listed by chapter `c` of part number `p`. */
  predicate ListedAt(doc: Outline, a: Value, p: nat, c: nat) {
    1 <= p <= |doc.parts| && c < |doc.parts[p - 1].chapters| && a in doc.parts[p - 1].chapters[c].articles
  }

  /** The assignments of a chapter are its articles with its metadata. */
  lemma CapoPairsAre(doc: Outline, p: nat, part: Part, capo: Capo)
    ensures forall a, v :: (a, v) in CapoPairs(doc, p, part, capo) <==> a in capo.articles && v == Meta(doc, p, part, capo)
  {
    var ps := CapoPairs(doc, p, part, capo);
    forall a | a in capo.articles
      ensures (a, Meta(doc, p, part, capo)) in ps
    {
      var i :| 0 <= i < |capo.articles| && capo.articles[i] == a;
      assert ps[i] == (a, Meta(doc, p, part, capo));
    }
  }

  /** The assignments of a part are its chapters' articles, each with the
      metadata of its chapter. */
  lemma {:induction false} PartPairsAre(doc: Outline, p: nat, part: Part, n: nat)
    requires n <= |part.chapters|
    ensures forall a, v :: (a, v) in PartPairs(doc, p, part, n) <==>
      exists c :: 0 <= c < n && a in part.chapters[c].articles && v == Meta(doc, p, part, part.chapters[c])
  {
    if n > 0 {
      PartPairsAre(doc, p, part, n - 1);
      CapoPairsAre(doc, p, part, part.chapters[n - 1]);
    }
  }

  /** The assignments of the first `n` parts: the articles of their
      chapters, each with the metadata of its part and chapter. */
  lemma {:induction false} OutlinePairsAre(doc: Outline, n: nat)
    requires n <= |doc.parts|
    ensures forall a, v :: (a, v) in OutlinePairs(doc, n) <==>
      exists p: nat, c: nat :: p <= n && ListedAt(doc, a, p, c) && v == Meta(doc, p, doc.parts[p - 1], doc.parts[p - 1].chapters[c])
  {
    if n > 0 {
      OutlinePairsAre(doc, n - 1);
      var part := doc.parts[n - 1];
      PartPairsAre(doc, n, part, |part.chapters|);
      forall a, v | (a, v) in OutlinePairs(doc, n)
        ensures exists p: nat, c: nat :: p <= n && ListedAt(doc, a, p, c) && v == Meta(doc, p, doc.parts[p - 1], doc.parts[p - 1].chapters[c])
      {
        if (a, v) !in OutlinePairs(doc, n - 1) {
          var c :| 0 <= c < |part.chapters| && a in part.chapters[c].articles && v == Meta(doc, n, part, part.chapters[c]);
          assert ListedAt(doc, a, n, c);
        }
      }
      forall a, v | exists p: nat, c: nat :: p <= n && ListedAt(doc, a, p, c) && v == Meta(doc, p, doc.parts[p - 1], doc.parts[p - 1].chapters[c])
        ensures (a, v) in OutlinePairs(doc, n)
      {
        var p: nat, c: nat :| p <= n && ListedAt(doc, a, p, c) && v == Meta(doc, p, doc.parts[p - 1], doc.parts[p - 1].chapters[c]);
        if p == n {
          assert (a, v) in PartPairs(doc, n, part, |part.chapters|);
        } else {
          assert (a, v) in OutlinePairs(doc, n - 1);
        }
      }
    }
  }

  /** The map binds exactly the articles listed by some chapter; each is
      bound to the metadata of a chapter listing it, with the document type
      "testo_normativo". */
  lemma StructuralMapSpec(doc: Outline)
    ensures forall a :: a in StructuralMap(doc) <==> exists p: nat, c: nat :: ListedAt(doc, a, p, c)
    ensures forall a :: a in StructuralMap(doc) ==>
      exists p: nat, c: nat :: ListedAt(doc, a, p, c) && StructuralMap(doc)[a] == Meta(doc, p, doc.parts[p - 1], doc.parts[p - 1].chapters[c])
    ensures forall a :: a in StructuralMap(doc) ==>
      "document_type" in StructuralMap(doc)[a] && StructuralMap(doc)[a]["document_type"] == Str(DocumentType)
  {
    var ps := OutlinePairs(doc, |doc.parts|);
    OutlinePairsAre(doc, |doc.parts|);
    LastWinsKeys(ps);
    LastWinsFromPairs(ps);
    forall a | exists p: nat, c: nat :: ListedAt(doc, a, p, c)
      ensures a in StructuralMap(doc)
    {
      var p: nat, c: nat :| ListedAt(doc, a, p, c);
      var v := Meta(doc, p, doc.parts[p - 1], doc.parts[p - 1].chapters[c]);
      assert (a, v) in ps;
      var i :| 0 <= i < |ps| && ps[i] == (a, v);
      assert ps[i].0 == a;
    }
    forall a | a in StructuralMap(doc)
      ensures exists p: nat, c: nat :: ListedAt(doc, a, p, c) && StructuralMap(doc)[a] == Meta(doc, p, doc.parts[p - 1], doc.parts[p - 1].chapters[c])
    {
      assert (a, LastWins(ps)[a]) in ps;
    }
  }

  /** An article listed again by a later chapter takes that chapter's
      metadata: the last assignment of an article wins. */
  lemma StructuralMapLastWins(doc: Outline, i: nat)
    requires var ps := OutlinePairs(doc, |doc.parts|);
      i < |ps| && forall j :: i < j < |ps| ==> ps[j].0 != ps[i].0
    ensures var ps := OutlinePairs(doc, |doc.parts|);
      ps[i].0 in StructuralMap(doc) && StructuralMap(doc)[ps[i].0] == ps[i].1
  {
    LastWinsIs(OutlinePairs(doc, |doc.parts|), i);
  }

  lemma LastWinsSnoc(ps: seq<(Value, Record)>, i: nat)
    requires i < |ps|
    ensures LastWins(ps[..i + 1]) == LastWins(ps[..i])[ps[i].0 := ps[i].1]
  {
    assert ps[..i + 1][..i] == ps[..i];
  }

  /** The innermost loop: the articles of one chapter. */
  method AddCapo(m0: map<Value, Record>, doc: Outline, p: nat, part: Part, capo: Capo) returns (m: map<Value, Record>)
    ensures m == m0 + LastWins(CapoPairs(doc, p, part, capo))
  {
    var meta := Meta(doc, p, part, capo);
    ghost var pairs := CapoPairs(doc, p, part, capo);
    m := m0;
    var i := 0;
    while i < |capo.articles|
      invariant 0 <= i <= |capo.articles|
      invariant m == m0 + LastWins(pairs[..i])
    {
      LastWinsSnoc(pairs, i);
      UnionUpdate(m0, LastWins(pairs[..i]), capo.articles[i], meta);
      m := m[capo.articles[i] := meta];
      i := i + 1;
    }
    assert pairs[..i] == pairs;
  }

  /** Adding one more chapter's articles to the map of the earlier ones. */
  lemma PartStep(m0: map<Value, Record>, doc: Outline, p: nat, part: Part, c: nat, m: map<Value, Record>)
    requires c < |part.chapters|
    requires m == (m0 + LastWins(PartPairs(doc, p, part, c))) + LastWins(CapoPairs(doc, p, part, part.chapters[c]))
    ensures m == m0 + LastWins(PartPairs(doc, p, part, c + 1))
  {
    var done := PartPairs(doc, p, part, c);
    var added := CapoPairs(doc, p, part, part.chapters[c]);
    calc {
      m;
      { UnionAssoc(m0, LastWins(done), LastWins(added)); }
      m0 + (LastWins(done) + LastWins(added));
      { LastWinsAppend(done, added); }
      m0 + LastWins(done + added);
    }
  }

  /** The middle loop: the chapters of one part. */
  method AddPart(m0: map<Value, Record>, doc: Outline, p: nat, part: Part) returns (m: map<Value, Record>)
    ensures m == m0 + LastWins(PartPairs(doc, p, part, |part.chapters|))
  {
    m := m0;
    var c := 0;
    while c < |part.chapters|
      invariant 0 <= c <= |part.chapters|
      invariant m == m0 + LastWins(PartPairs(doc, p, part, c))
    {
      m := AddCapo(m, doc, p, part, part.chapters[c]);
      PartStep(m0, doc, p, part, c, m);
      c := c + 1;
    }
  }

  /** The outer loop of `costruisci_mappa_strutturale`. */
  method BuildStructuralMap(doc: Outline) returns (m: map<Value, Record>)
    ensures m == StructuralMap(doc)
  {
    m := map[];
    var p := 0;
    while p < |doc.parts|
      invariant 0 <= p <= |doc.parts|
      invariant m == LastWins(OutlinePairs(doc, p))
    {
      var part := doc.parts[p];
      m := AddPart(m, doc, p + 1, part);
      LastWinsAppend(OutlinePairs(doc, p), PartPairs(doc, p + 1, part, |part.chapters|));
      p := p + 1;
    }
  }

  // ---------------------------------------------------------------------
  // The chunks

  /** The dict without its None values. */
  function DropNulls(r: Record): (d: Record)
    ensures forall k :: k in d <==> k in r && r[k] != Null
    ensures forall k :: k in d ==> d[k] == r[k]
  {
    map k | k in r && r[k] != Null :: r[k]
  }

  /** `record.get("comma", "1").replace(".", "")`: None where the value is
      not a string (the script then crashes). */
  function CleanComma(rec: Record): (r: Option<Value>)
    ensures r.Some? <==> GetOr(rec, "comma", Str("1")).Str?
    ensures r.Some? ==> r.value == Str(RemoveChars(GetOr(rec, "comma", Str("1")).s, {'.'}))
    ensures r.Some? ==> r.value.Str? && forall i :: 0 <= i < |r.value.s| ==> r.value.s[i] != '.'
  {
    var v := GetOr(rec, "comma", Str("1"));
    if v.Str? then Some(Str(RemoveChars(v.s, {'.'}))) else None
  }

  /** The chunk of a record whose article is in the map. */
  function Chunk(meta: Record, rec: Record, comma: Value): Record {
    DropNulls(meta + map["articolo" := GetOr(rec, "articolo", Null), "comma" := comma,
                         "testo_originale_comma" := GetOr(rec, "testo_originale_comma", Str("")),
                         "keywords" := GetOr(rec, "keywords", Strs([]))])
  }

  /** `segmenta_e_pulisci_chunk`'s loop from record `i` on, with the
      chunks made so far; None when the script crashes. */
  function CleanFrom(m: map<Value, Record>, records: seq<Record>, i: nat, acc: seq<Record>): Option<seq<Record>>
    decreases |records| - i
  {
    if i >= |records| then Some(acc)
    else
      var id := GetOr(records[i], "articolo", Null);
      if id !in m then CleanFrom(m, records, i + 1, acc)
      else
        var comma := CleanComma(records[i]);
        if comma.None? then None
        else CleanFrom(m, records, i + 1, acc + [Chunk(m[id], records[i], comma.value)])
  }

  /** The records whose article is in the map, in order. */
  function Kept(m: map<Value, Record>, records: seq<Record>): (r: seq<Record>)
    ensures |r| <= |records|
  {
    if records == [] then []
    else (if GetOr(records[0], "articolo", Null) in m then [records[0]] else []) + Kept(m, records[1..])
  }

  /** The keys the script sets on every chunk. */
  const ChunkFields: set<string> := {"articolo", "comma", "testo_originale_comma", "keywords"}

  /** Field `k` of `chunk` is `v` when `v` is not null, and absent when it is. */
  predicate FieldIs(chunk: Record, k: string, v: Value) {
    if v == Null then k !in chunk else k in chunk && chunk[k] == v
  }

  /** A chunk of record `rec`: the structural metadata of its article and
      the record's own fields (the paragraph number without its dots, the
      text and keywords with their defaults), with no null value. */
  predicate IsChunk(chunk: Record, m: map<Value, Record>, rec: Record) {
    var id := GetOr(rec, "articolo", Null);
    var comma := GetOr(rec, "comma", Str("1"));
    && id in m
    && (forall k :: k in chunk ==> chunk[k] != Null)
    && comma.Str?
    && "comma" in chunk && chunk["comma"] == Str(RemoveChars(comma.s, {'.'}))
    && FieldIs(chunk, "articolo", id)
    && FieldIs(chunk, "testo_originale_comma", GetOr(rec, "testo_originale_comma", Str("")))
    && FieldIs(chunk, "keywords", GetOr(rec, "keywords", Strs([])))
    && (forall k :: k in chunk && k !in ChunkFields ==> k in m[id] && chunk[k] == m[id][k])
    && (forall k :: k in m[id] && m[id][k] != Null && k !in ChunkFields ==> k in chunk && chunk[k] == m[id][k])
  }

  predicate AllChunks(out: seq<Record>, m: map<Value, Record>, kept: seq<Record>) {
    |out| == |kept| && forall k :: 0 <= k < |kept| ==> IsChunk(out[k], m, kept[k])
  }

  lemma ChunkIsChunk(m: map<Value, Record>, rec: Record, comma: Value)
    requires GetOr(rec, "articolo", Null) in m && CleanComma(rec) == Some(comma)
    ensures IsChunk(Chunk(m[GetOr(rec, "articolo", Null)], rec, comma), m, rec)
  {
  }

  lemma AllChunksCons(x: Record, tail: seq<Record>, m: map<Value, Record>, rec: Record, rest: seq<Record>)
    requires IsChunk(x, m, rec) && AllChunks(tail, m, rest)
    ensures AllChunks([x] + tail, m, [rec] + rest)
  {
    forall k | 0 <= k < |rest| + 1 ensures IsChunk(([x] + tail)[k], m, ([rec] + rest)[k]) {
      if k > 0 {
        assert ([x] + tail)[k] == tail[k - 1];
        assert ([rec] + rest)[k] == rest[k - 1];
      }
    }
  }

  /** The chunks after one more chunk. */
  lemma ChunkStep(acc: seq<Record>, x: Record, out: seq<Record>, m: map<Value, Record>, rec: Record, rest: seq<Record>)
    requires IsChunk(x, m, rec)
    requires |out| >= |acc + [x]| && out[..|acc + [x]|] == acc + [x] && AllChunks(out[|acc + [x]|..], m, rest)
    ensures |out| >= |acc| && out[..|acc|] == acc && AllChunks(out[|acc|..], m, [rec] + rest)
  {
    var next := acc + [x];
    assert out[..|acc|] == out[..|next|][..|acc|];
    assert out[|acc|] == out[..|next|][|acc|];
    assert out[|acc|..] == [x] + out[|next|..];
    AllChunksCons(x, out[|next|..], m, rec, rest);
  }

  predicate AllCommasClean(kept: seq<Record>) {
    forall k :: 0 <= k < |kept| ==> CleanComma(kept[k]).Some?
  }

  /** The loop crashes exactly when a kept record's paragraph number is not
      a string; otherwise it makes one chunk per kept record, in order, so
      records whose article is not in the map are skipped. */
  lemma {:induction false} CleanFromSpec(m: map<Value, Record>, records: seq<Record>, i: nat, acc: seq<Record>)
    requires i <= |records|
    ensures var r := CleanFrom(m, records, i, acc);
      && (r.Some? <==> AllCommasClean(Kept(m, records[i..])))
      && (r.Some? ==> |r.value| >= |acc| && r.value[..|acc|] == acc && AllChunks(r.value[|acc|..], m, Kept(m, records[i..])))
    decreases |records| - i
  {
    var kept := Kept(m, records[i..]);
    if i == |records| {
      assert records[i..] == [] && acc[|acc|..] == [];
    } else {
      var rec := records[i];
      var id := GetOr(rec, "articolo", Null);
      assert records[i..][1..] == records[i + 1..];
      var rest := Kept(m, records[i + 1..]);
      if id !in m {
        assert kept == rest;
        CleanFromSpec(m, records, i + 1, acc);
      } else {
        assert kept == [rec] + rest;
        var comma := CleanComma(rec);
        if comma.None? {
          assert !CleanComma(kept[0]).Some?;
        } else {
          var x := Chunk(m[id], rec, comma.value);
          var next := acc + [x];
          CleanFromSpec(m, records, i + 1, next);
          assert AllCommasClean(kept) <==> AllCommasClean(rest) by {
            assert forall k :: 0 <= k < |rest| ==> rest[k] == kept[k + 1];
          }
          var r := CleanFrom(m, records, i + 1, next);
          if r.Some? {
            ChunkIsChunk(m, rec, comma.value);
            ChunkStep(acc, x, r.value, m, rec, rest);
          }
        }
      }
    }
  }

  /** `segmenta_e_pulisci_chunk` given the structure file and the enriched
      records: the chunks, or None when the script crashes. */
  function SegmentAndClean(doc: Outline, records: seq<Record>): Option<seq<Record>> {
    CleanFrom(StructuralMap(doc), records, 0, [])
  }

  /** The run crashes exactly when a kept record's paragraph number is not
      a string; otherwise every record whose article is listed gives one
      chunk, in order, the others none, and each chunk carries the
      document type "testo_normativo". */
  lemma SegmentAndCleanSpec(doc: Outline, records: seq<Record>)
    ensures var m := StructuralMap(doc);
      var r := SegmentAndClean(doc, records);
      && (r.Some? <==> AllCommasClean(Kept(m, records)))
      && (r.Some? ==> AllChunks(r.value, m, Kept(m, records)) && |r.value| <= |records|)
      && (r.Some? ==> forall k :: 0 <= k < |r.value| ==>
            "document_type" in r.value[k] && r.value[k]["document_type"] == Str(DocumentType))
  {
    var m := StructuralMap(doc);
    CleanFromSpec(m, records, 0, []);
    StructuralMapSpec(doc);
    assert records[0..] == records;
    var r := SegmentAndClean(doc, records);
    if r.Some? {
      assert r.value[0..] == r.value;
      var kept := Kept(m, records);
      forall k | 0 <= k < |r.value|
        ensures "document_type" in r.value[k] && r.value[k]["document_type"] == Str(DocumentType)
      {
        assert IsChunk(r.value[k], m, kept[k]);
        var id := GetOr(kept[k], "articolo", Null);
        assert m[id]["document_type"] == Str(DocumentType);
      }
    }
  }

  /** The loop of `segmenta_e_pulisci_chunk`. */
  method CleanRecords(doc: Outline, records: seq<Record>) returns (r: Option<seq<Record>>)
    ensures r == SegmentAndClean(doc, records)
  {
    var m := BuildStructuralMap(doc);
    var chunks: seq<Record> := [];
    var i := 0;
    while i < |records|
      invariant 0 <= i <= |records|
      invariant CleanFrom(m, records, 0, []) == CleanFrom(m, records, i, chunks)
    {
      var id := GetOr(records[i], "articolo", Null);
      if id !in m {
        i := i + 1;
        continue;
      }
      var comma := GetOr(records[i], "comma", Str("1"));
      if !comma.Str? {
        return None;
      }
      var chunk := m[id] + map["articolo" := id, "comma" := Str(RemoveChars(comma.s, {'.'})),
                               "testo_originale_comma" := GetOr(records[i], "testo_originale_comma", Str("")),
                               "keywords" := GetOr(records[i], "keywords", Strs([]))];
      chunks := chunks + [map k | k in chunk && chunk[k] != Null :: chunk[k]];
      i := i + 1;
    }
    r := Some(chunks);
  }
}
