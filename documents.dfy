/** `DocumentProcessor`: the corpus of chunk entries, how an ingestion batch
    extends it, and the search over it. Text extraction is the function
    parameter `extract`; the embedding model and the nearest-neighbour index
    are reduced to whether they exist. */
module Documents {
  import opened Wrappers
  import opened Text
  import Chunking

  /** One corpus entry `{id, path, text, meta: {source}}`, with the lowercase
      token set attached in token mode and whether an embedding is attached. */
  datatype Entry = Entry(id: nat, path: string, text: string, source: string,
                         tokens: Option<set<string>>, embedded: bool)

  /** `{path, chunks}`: what a batch reports for one file. */
  datatype FileReport = FileReport(path: string, chunks: nat)

  /** `{score, text, source}`: one search result. */
  datatype Hit = Hit(score: nat, text: string, source: string)

  /** A vector search is reduced to how many neighbours it asks for; a token
      search gives its hits. */
  datatype SearchOutcome = Nearest(k: nat) | Overlap(hits: seq<Hit>)

  /** `(overlap, entry)` in the list the token search sorts; the entry is
      named by its position in the corpus. */
  datatype Scored = Scored(score: nat, idx: nat)

  /** `set(s.lower().split())` */
  function TokenSet(s: string): set<string> {
    set w | w in Words(Lower(s))
  }

  /** `len(q_tokens & d.get('tokens', set()))`: an entry without tokens scores 0. */
  function Score(q: set<string>, e: Entry): nat {
    if e.tokens.Some? then |q * e.tokens.value| else 0
  }

  /** Index of the last `.` in `s`, if any. */
  function LastDot(s: string): (r: Option<nat>)
    ensures r.Some? ==> r.value < |s| && s[r.value] == '.' && '.' !in s[r.value + 1..]
    ensures r.None? ==> '.' !in s
  {
    if s == [] then None
    else if s[|s| - 1] == '.' then Some(|s| - 1)
    else
      var r := LastDot(s[..|s| - 1]);
      assert s == s[..|s| - 1] + [s[|s| - 1]];
      r
  }

  /** `os.path.splitext(p)[1].lower()`: from the last dot of the file name on,
      unless only dots precede it. */
  function Extension(p: string): string {
    var b := Basename(p);
    var d := LastDot(b);
    if d.Some? && exists i :: 0 <= i < d.value && b[i] != '.' then Lower(b[d.value..]) else ""
  }

  /** A new corpus entry before any index structure is attached. */
  function NewEntry(id: nat, path: string, text: string): Entry {
    Entry(id, path, text, Basename(path), None, false)
  }

  /** The `(path, chunk)` pairs of one file. */
  function PiecesOf(path: string, chunks: seq<string>): (r: seq<(string, string)>)
    ensures |r| == |chunks|
  {
    seq(|chunks|, j requires 0 <= j < |chunks| => (path, chunks[j]))
  }

  /** The `(path, chunk)` pairs a batch adds: file by file, chunk by chunk. */
  function Pieces(paths: seq<string>, extract: string -> string): seq<(string, string)> {
    if paths == [] then []
    else
      var p := paths[|paths| - 1];
      Pieces(paths[..|paths| - 1], extract) + PiecesOf(p, Chunking.ChunkText(extract(p)))
  }

  /** The entries for `pieces` when the corpus already holds `start` entries. */
  function Appended(start: nat, pieces: seq<(string, string)>): (r: seq<Entry>)
    ensures |r| == |pieces|
  {
    seq(|pieces|, k requires 0 <= k < |pieces| => NewEntry(start + k, pieces[k].0, pieces[k].1))
  }

  lemma AppendedSnoc(start: nat, pieces: seq<(string, string)>, x: (string, string))
    ensures Appended(start, pieces + [x]) == Appended(start, pieces) + [NewEntry(start + |pieces|, x.0, x.1)]
  {
  }

  /** The index structure attached to an entry at the end of a batch: an
      embedding when the batch rebuilds the vector index, else a token set. */
  function Attach(e: Entry, vector: bool): (r: Entry)
    ensures r.id == e.id && r.path == e.path && r.text == e.text && r.source == e.source
    ensures vector ==> r.embedded && r.tokens == e.tokens
    ensures !vector ==> r.tokens == Some(TokenSet(r.text)) && r.embedded == e.embedded
  {
    if vector then e.(embedded := true) else e.(tokens := Some(TokenSet(e.text)))
  }

  /** `o1` is ranked before `o2`: a larger overlap, or the same overlap and
      earlier in the corpus. */
  predicate Ahead(o1: Scored, o2: Scored) {
    o1.score > o2.score || (o1.score == o2.score && o1.idx < o2.idx)
  }

  /** `order` lists the corpus positions of the token search, best first:
      exactly the entries with a positive overlap, by decreasing overlap, ties
      in corpus order. */
  ghost predicate RankedBy(docs: seq<Entry>, q: set<string>, order: seq<nat>) {
    && (forall k :: 0 <= k < |order| ==> order[k] < |docs| && Score(q, docs[order[k]]) > 0)
    && (forall i :: 0 <= i < |docs| && Score(q, docs[i]) > 0 ==> i in order)
    && Chain(docs, q, order)
  }

  /** Corpus position `i` ranks before position `j`. */
  predicate Before(docs: seq<Entry>, q: set<string>, i: nat, j: nat) {
    i < |docs| && j < |docs| && Ahead(Scored(Score(q, docs[i]), i), Scored(Score(q, docs[j]), j))
  }

  /** Corpus positions in strictly decreasing rank. */
  ghost predicate Chain(docs: seq<Entry>, q: set<string>, order: seq<nat>) {
    forall k, l :: 0 <= k < l < |order| ==> Before(docs, q, order[k], order[l])
  }

  /** Two rankings of the same positions are the same list. */
  lemma {:induction false} ChainUnique(docs: seq<Entry>, q: set<string>, o1: seq<nat>, o2: seq<nat>)
    requires Chain(docs, q, o1) && Chain(docs, q, o2)
    requires forall x :: x in o1 <==> x in o2
    ensures o1 == o2
  {
    assert o1 != [] ==> o1[0] in o1;
    assert o2 != [] ==> o2[0] in o2;
    if o1 != [] && o2 != [] {
      var k :| 0 <= k < |o1| && o1[k] == o2[0];
      var l :| 0 <= l < |o2| && o2[l] == o1[0];
      var h1, h2 := o1[0], o2[0];
      assert k > 0 ==> Before(docs, q, h1, h2);
      assert l > 0 ==> Before(docs, q, h2, h1);
      assert h1 == h2;
      forall x
        ensures x in o1[1..] <==> x in o2[1..]
      {
        ChainTail(docs, q, o1, x);
        ChainTail(docs, q, o2, x);
      }
      ChainUnique(docs, q, o1[1..], o2[1..]);
      assert o1 == [o1[0]] + o1[1..] && o2 == [o2[0]] + o2[1..];
    }
  }

  /** The tail of a ranking is a ranking of the rest. */
  lemma ChainTail(docs: seq<Entry>, q: set<string>, o: seq<nat>, x: nat)
    requires Chain(docs, q, o) && o != []
    ensures Chain(docs, q, o[1..])
    ensures x in o[1..] <==> x in o && x != o[0]
  {
    if x in o[1..] {
      var k :| 0 <= k < |o[1..]| && o[1..][k] == x;
      assert Before(docs, q, o[0], o[k + 1]);
    }
    if x in o && x != o[0] {
      var k :| 0 <= k < |o| && o[k] == x;
      assert o[1..][k - 1] == x;
    }
  }

  /** The token ranking is unique: `search` in token mode is a function of
      the corpus and the query. */
  lemma RankingUnique(docs: seq<Entry>, q: set<string>, o1: seq<nat>, o2: seq<nat>)
    requires RankedBy(docs, q, o1) && RankedBy(docs, q, o2)
    ensures o1 == o2
  {
    ChainUnique(docs, q, o1, o2);
  }

  /** The first `topK` entries of `order` as results. */
  function HitsOf(docs: seq<Entry>, q: set<string>, order: seq<nat>, topK: nat): (r: seq<Hit>)
    requires forall k :: 0 <= k < |order| ==> order[k] < |docs|
    ensures |r| == if topK < |order| then topK else |order|
  {
    var n := if topK < |order| then topK else |order|;
    seq(n, k requires 0 <= k < n => Hit(Score(q, docs[order[k]]), docs[order[k]].text, docs[order[k]].source))
  }

  /** What `search(query, top_k)` returns: with a vector index, the
      `min(top_k, len(docs))` nearest neighbours; otherwise the ranked token
      hits, cut to `top_k`. */
  ghost predicate SearchAnswer(docs: seq<Entry>, nnBuilt: bool, query: string, topK: nat, outcome: SearchOutcome) {
    if nnBuilt then outcome == Nearest(if topK < |docs| then topK else |docs|)
    else
      outcome.Overlap? &&
      exists order :: RankedBy(docs, TokenSet(query), order) && outcome.hits == HitsOf(docs, TokenSet(query), order, topK)
  }

  /** Two answers to the same search are the same. */
  lemma SearchDeterministic(docs: seq<Entry>, nnBuilt: bool, query: string, topK: nat, r1: SearchOutcome, r2: SearchOutcome)
    requires SearchAnswer(docs, nnBuilt, query, topK, r1) && SearchAnswer(docs, nnBuilt, query, topK, r2)
    ensures r1 == r2
  {
    if !nnBuilt {
      var q := TokenSet(query);
      var o1 :| RankedBy(docs, q, o1) && r1.hits == HitsOf(docs, q, o1, topK);
      var o2 :| RankedBy(docs, q, o2) && r2.hits == HitsOf(docs, q, o2, topK);
      RankingUnique(docs, q, o1, o2);
    }
  }

  /** The token hits: at most `top_k`, every score positive and equal to the
      entry's overlap, scores non-increasing, and every entry sharing a token
      with the query is returned unless `top_k` cut the list. */
  lemma TokenHits(docs: seq<Entry>, q: set<string>, order: seq<nat>, topK: nat)
    requires RankedBy(docs, q, order)
    ensures var hits := HitsOf(docs, q, order, topK);
      && |hits| <= topK
      && (forall k :: 0 <= k < |hits| ==> hits[k].score > 0)
      && (forall k, l :: 0 <= k < l < |hits| ==> hits[k].score >= hits[l].score)
      && (|hits| < topK ==> forall d :: 0 <= d < |docs| && Score(q, docs[d]) > 0 ==>
            Hit(Score(q, docs[d]), docs[d].text, docs[d].source) in hits)
  {
    var hits := HitsOf(docs, q, order, topK);
    forall k, l | 0 <= k < l < |hits|
      ensures hits[k].score >= hits[l].score
    {
      assert Before(docs, q, order[k], order[l]);
    }
    if |hits| < topK {
      forall d | 0 <= d < |docs| && Score(q, docs[d]) > 0
        ensures Hit(Score(q, docs[d]), docs[d].text, docs[d].source) in hits
      {
        var k :| 0 <= k < |order| && order[k] == d;
        assert hits[k] == Hit(Score(q, docs[d]), docs[d].text, docs[d].source);
      }
    }
  }

  /** An empty corpus, or a corpus without token sets, gives no hits. */
  lemma NoTokensNoHits(docs: seq<Entry>, q: set<string>, order: seq<nat>, topK: nat)
    requires RankedBy(docs, q, order)
    requires forall i :: 0 <= i < |docs| ==> docs[i].tokens.None?
    ensures HitsOf(docs, q, order, topK) == []
  {
    if order != [] {
      RankedHead(docs, q, order);
      assert false;
    }
  }

  /** The best ranked entry shares a token with the query. */
  lemma RankedHead(docs: seq<Entry>, q: set<string>, order: seq<nat>)
    requires RankedBy(docs, q, order) && order != []
    ensures order[0] < |docs| && docs[order[0]].tokens.Some? && Score(q, docs[order[0]]) > 0
  {
  }

  /** `scored.sort(key=lambda x: x[0], reverse=True)`: a stable sort on the
      overlap alone, descending. Entries come in corpus order, so stability
      puts equal overlaps in corpus order. */
  method SortByScore(a: array<Scored>)
    requires forall i, j :: 0 <= i < j < a.Length ==> a[i].idx < a[j].idx
    modifies a
    ensures forall i, j :: 0 <= i < j < a.Length ==> Ahead(a[i], a[j])
    ensures multiset(a[..]) == multiset(old(a[..]))
  {
    var i := 0;
    while i < a.Length
      invariant 0 <= i <= a.Length
      invariant forall x, y :: 0 <= x < y < i ==> Ahead(a[x], a[y])
      invariant forall x, y :: 0 <= x < y < a.Length && i <= y ==> a[x].idx < a[y].idx
      invariant multiset(a[..]) == multiset(old(a[..]))
    {
      InsertAt(a, i);
      i := i + 1;
    }
  }

  /** One pass of the sort: moves `a[i]` left past every entry with a
      smaller overlap. */
  method InsertAt(a: array<Scored>, i: nat)
    requires i < a.Length
    requires forall x, y :: 0 <= x < y < i ==> Ahead(a[x], a[y])
    requires forall x, y :: 0 <= x < y < a.Length && i <= y ==> a[x].idx < a[y].idx
    modifies a
    ensures forall x, y :: 0 <= x < y <= i ==> Ahead(a[x], a[y])
    ensures forall x, y :: 0 <= x < y < a.Length && i < y ==> a[x].idx < a[y].idx
    ensures multiset(a[..]) == multiset(old(a[..]))
  {
    var j := i;
    while j > 0 && a[j - 1].score < a[j].score
      invariant 0 <= j <= i
      invariant forall x, y :: 0 <= x < y <= i && x != j && y != j ==> Ahead(a[x], a[y])
      invariant forall y :: j < y <= i ==> Ahead(a[j], a[y])
      invariant forall x :: 0 <= x <= i && x != j ==> a[x].idx < a[j].idx
      invariant forall x, y :: 0 <= x < y < a.Length && i < y ==> a[x].idx < a[y].idx
      invariant multiset(a[..]) == multiset(old(a[..]))
    {
      Swap(a, j);
      j := j - 1;
    }
    forall x | 0 <= x < j
      ensures Ahead(a[x], a[j])
    {
      if x < j - 1 {
        assert Ahead(a[x], a[j - 1]);
      }
    }
  }

  /** Exchanges `a[j - 1]` and `a[j]`. */
  method Swap(a: array<Scored>, j: nat)
    requires 0 < j < a.Length
    modifies a
    ensures a[j - 1] == old(a[j]) && a[j] == old(a[j - 1])
    ensures forall x :: 0 <= x < a.Length && x != j - 1 && x != j ==> a[x] == old(a[x])
    ensures multiset(a[..]) == multiset(old(a[..]))
  {
    a[j - 1], a[j] := a[j], a[j - 1];
  }
  lemma PiecesStep(done: seq<(string, string)>, p: string, cs: seq<string>, j: nat, pieces: seq<(string, string)>)
    requires j < |cs|
    requires pieces == done + PiecesOf(p, cs[..j])
    ensures pieces + [(p, cs[j])] == done + PiecesOf(p, cs[..j + 1])
  {
    assert PiecesOf(p, cs[..j + 1]) == PiecesOf(p, cs[..j]) + [(p, cs[j])];
  }

  lemma AppendStep(before: seq<Entry>, pieces: seq<(string, string)>, ds: seq<Entry>, x: (string, string))
    requires ds == before + Appended(|before|, pieces)
    ensures ds + [NewEntry(|ds|, x.0, x.1)] == before + Appended(|before|, pieces + [x])
  {
    AppendedSnoc(|before|, pieces, x);
  }

  /** Ids are positions; the source is the file name of the path; a token
      set is that of the text; the vector index exists exactly when the model
      loaded and the corpus is not empty, and then every entry is embedded;
      without it every entry has its tokens. */
  ghost predicate Consistent(ds: seq<Entry>, nnBuilt: bool, modelLoaded: bool) {
    && (forall i :: 0 <= i < |ds| ==> ds[i].id == i && ds[i].source == Basename(ds[i].path))
    && (forall i :: 0 <= i < |ds| && ds[i].tokens.Some? ==> ds[i].tokens.value == TokenSet(ds[i].text))
    && (nnBuilt <==> modelLoaded && ds != [])
    && (nnBuilt ==> forall i :: 0 <= i < |ds| ==> ds[i].embedded)
    && (!nnBuilt ==> forall i :: 0 <= i < |ds| ==> ds[i].tokens.Some?)
  }

  /** One entry of the grown corpus before its index structure is attached. */
  lemma BatchEntry(before: seq<Entry>, pieces: seq<(string, string)>, k: nat, nnBuilt: bool, modelLoaded: bool)
    requires Consistent(before, nnBuilt, modelLoaded)
    requires k < |before| + |pieces|
    ensures var e := (before + Appended(|before|, pieces))[k];
      && e.id == k && e.source == Basename(e.path)
      && (e.tokens.Some? ==> e.tokens.value == TokenSet(e.text))
      && (nnBuilt && pieces == [] ==> e.embedded)
  {
    var all := before + Appended(|before|, pieces);
    if k < |before| {
      assert all[k] == before[k];
    } else {
      assert all[k] == NewEntry(k, pieces[k - |before|].0, pieces[k - |before|].1);
    }
  }

  /** A batch keeps the corpus consistent: the index is rebuilt exactly when
      the model loaded and the batch added entries. */
  lemma BatchConsistent(before: seq<Entry>, pieces: seq<(string, string)>, ds: seq<Entry>, nnBuilt: bool, modelLoaded: bool)
    requires Consistent(before, nnBuilt, modelLoaded)
    requires |ds| == |before| + |pieces|
    requires forall k :: 0 <= k < |ds| ==>
      ds[k] == Attach((before + Appended(|before|, pieces))[k], modelLoaded && pieces != [])
    ensures Consistent(ds, nnBuilt || (modelLoaded && pieces != []), modelLoaded)
  {
    var vector := modelLoaded && pieces != [];
    forall k | 0 <= k < |ds|
      ensures ds[k].id == k && ds[k].source == Basename(ds[k].path)
      ensures ds[k].tokens.Some? ==> ds[k].tokens.value == TokenSet(ds[k].text)
      ensures vector ==> ds[k].embedded
      ensures !vector ==> ds[k].tokens.Some?
      ensures nnBuilt && !vector ==> ds[k].embedded
    {
      BatchEntry(before, pieces, k, nnBuilt, modelLoaded);
    }
    if !vector && nnBuilt {
      assert pieces == [];
    }
  }

  lemma PiecesPrefix(paths: seq<string>, i: nat, extract: string -> string)
    requires i < |paths|
    ensures Pieces(paths[..i + 1], extract) ==
      Pieces(paths[..i], extract) + PiecesOf(paths[i], Chunking.ChunkText(extract(paths[i])))
  {
    assert paths[..i + 1][..i] == paths[..i];
  }

  /** The inner loop of `process_documents`: one file's chunks become entries
      numbered on from the corpus size, and their texts are collected. */
  method IngestFile(before: seq<Entry>, ghost done: seq<(string, string)>, ds0: seq<Entry>, texts0: seq<string>,
                    p: string, chunks: seq<string>)
      returns (ds: seq<Entry>, newTexts: seq<string>)
    requires ds0 == before + Appended(|before|, done)
    requires texts0 == Texts(done)
    ensures ds == before + Appended(|before|, done + PiecesOf(p, chunks))
    ensures newTexts == Texts(done + PiecesOf(p, chunks))
  {
    ds, newTexts := ds0, texts0;
    ghost var pieces := done;
    for j := 0 to |chunks|
      invariant pieces == done + PiecesOf(p, chunks[..j])
      invariant ds == before + Appended(|before|, pieces)
      invariant newTexts == Texts(pieces)
    {
      PiecesStep(done, p, chunks, j, pieces);
      AppendStep(before, pieces, ds, (p, chunks[j]));
      TextsSnoc(pieces, (p, chunks[j]));
      ds := ds + [NewEntry(|ds|, p, chunks[j])];
      newTexts := newTexts + [chunks[j]];
      pieces := pieces + [(p, chunks[j])];
    }
    assert chunks[..|chunks|] == chunks;
  }

  /** The loop of `process_documents` over the files: each file's chunks
      become entries numbered on from the corpus size, every chunk text is
      collected for embedding, and each file is reported with its chunk count. */
  method Ingest(before: seq<Entry>, paths: seq<string>, extract: string -> string, notify: bool)
      returns (ds: seq<Entry>, newTexts: seq<string>, created: seq<FileReport>, callbacks: nat)
    ensures ds == before + Appended(|before|, Pieces(paths, extract))
    ensures newTexts == Texts(Pieces(paths, extract))
    ensures created == Reports(paths, extract)
    ensures callbacks == if notify then |paths| else 0
  {
    ds := before;
    newTexts := [];
    created := [];
    callbacks := 0;
    ghost var pieces: seq<(string, string)> := [];
    for i := 0 to |paths|
      invariant pieces == Pieces(paths[..i], extract)
      invariant ds == before + Appended(|before|, pieces)
      invariant newTexts == Texts(pieces)
      invariant |created| == i
      invariant created == Reports(paths[..i], extract)
      invariant callbacks == if notify then i else 0
    {
      var p := paths[i];
      var chunks := Chunking.DynamicChunking(extract(p), Extension(p));
      ds, newTexts := IngestFile(before, pieces, ds, newTexts, p, chunks);
      pieces := pieces + PiecesOf(p, chunks);
      PiecesPrefix(paths, i, extract);
      ReportsPrefix(paths, i, extract);
      created := created + [FileReport(p, |chunks|)];
      if notify {
        callbacks := callbacks + 1;
      }
    }
    assert paths[..|paths|] == paths;
  }

  /** `{path, chunks}` for each file of a batch. */
  function Reports(paths: seq<string>, extract: string -> string): (r: seq<FileReport>)
    ensures |r| == |paths|
  {
    if paths == [] then []
    else
      var p := paths[|paths| - 1];
      Reports(paths[..|paths| - 1], extract) + [FileReport(p, |Chunking.ChunkText(extract(p))|)]
  }

  lemma ReportsPrefix(paths: seq<string>, i: nat, extract: string -> string)
    requires i < |paths|
    ensures Reports(paths[..i + 1], extract) ==
      Reports(paths[..i], extract) + [FileReport(paths[i], |Chunking.ChunkText(extract(paths[i]))|)]
  {
    assert paths[..i + 1][..i] == paths[..i];
  }

  /** The report of each file names it with its chunk count. */
  lemma {:induction false} ReportsAt(paths: seq<string>, extract: string -> string, i: nat)
    requires i < |paths|
    ensures Reports(paths, extract)[i] == FileReport(paths[i], |Chunking.ChunkText(extract(paths[i]))|)
  {
    var init := paths[..|paths| - 1];
    assert Reports(paths, extract) ==
      Reports(init, extract) + [FileReport(paths[|paths| - 1], |Chunking.ChunkText(extract(paths[|paths| - 1]))|)];
    if i < |paths| - 1 {
      ReportsAt(init, extract, i);
      assert init[i] == paths[i];
    }
  }

  /** The chunk texts of `pieces`, in order. */
  function Texts(pieces: seq<(string, string)>): (r: seq<string>)
    ensures |r| == |pieces|
  {
    seq(|pieces|, k requires 0 <= k < |pieces| => pieces[k].1)
  }

  lemma TextsSnoc(pieces: seq<(string, string)>, x: (string, string))
    ensures Texts(pieces + [x]) == Texts(pieces) + [x.1]
  {
  }

  /** The end of `process_documents`: every entry of the corpus gets the
      index structure of the branch taken. */
  method AttachAll(ds: seq<Entry>, vector: bool) returns (r: seq<Entry>)
    ensures |r| == |ds|
    ensures forall k :: 0 <= k < |ds| ==> r[k] == Attach(ds[k], vector)
  {
    r := ds;
    for i := 0 to |r|
      invariant |r| == |ds|
      invariant forall k :: 0 <= k < i ==> r[k] == Attach(ds[k], vector)
      invariant forall k :: i <= k < |r| ==> r[k] == ds[k]
    {
      r := r[i := Attach(r[i], vector)];
    }
  }

  /** The entries with a positive overlap, in corpus order. */
  method Overlapping(ds: seq<Entry>, q: set<string>) returns (scored: seq<Scored>)
    ensures forall k :: 0 <= k < |scored| ==>
      scored[k].idx < |ds| && scored[k].score == Score(q, ds[scored[k].idx]) && scored[k].score > 0
    ensures forall k, l :: 0 <= k < l < |scored| ==> scored[k].idx < scored[l].idx
    ensures forall d :: 0 <= d < |ds| && Score(q, ds[d]) > 0 ==> Scored(Score(q, ds[d]), d) in scored
  {
    scored := [];
    for i := 0 to |ds|
      invariant forall k :: 0 <= k < |scored| ==>
        scored[k].idx < i && scored[k].score == Score(q, ds[scored[k].idx]) && scored[k].score > 0
      invariant forall k, l :: 0 <= k < l < |scored| ==> scored[k].idx < scored[l].idx
      invariant forall d :: 0 <= d < i && Score(q, ds[d]) > 0 ==> Scored(Score(q, ds[d]), d) in scored
    {
      var overlap := Score(q, ds[i]);
      if overlap > 0 {
        scored := scored + [Scored(overlap, i)];
      }
    }
  }

  /** The positions of a list of scored entries. */
  function Positions(sorted: seq<Scored>): (r: seq<nat>)
    ensures |r| == |sorted|
    ensures forall k :: 0 <= k < |r| ==> r[k] == sorted[k].idx
  {
    seq(|sorted|, k requires 0 <= k < |sorted| => sorted[k].idx)
  }

  /** Sorting the positively scored entries by overlap ranks them. */
  lemma SortedRanks(ds: seq<Entry>, q: set<string>, scored: seq<Scored>, sorted: seq<Scored>)
    requires forall k :: 0 <= k < |scored| ==>
      scored[k].idx < |ds| && scored[k].score == Score(q, ds[scored[k].idx]) && scored[k].score > 0
    requires forall d :: 0 <= d < |ds| && Score(q, ds[d]) > 0 ==> Scored(Score(q, ds[d]), d) in scored
    requires multiset(sorted) == multiset(scored)
    requires forall i, j :: 0 <= i < j < |sorted| ==> Ahead(sorted[i], sorted[j])
    ensures forall k :: 0 <= k < |sorted| ==>
      sorted[k].idx < |ds| && sorted[k].score == Score(q, ds[sorted[k].idx])
    ensures RankedBy(ds, q, Positions(sorted))
  {
    var order := Positions(sorted);
    forall k | 0 <= k < |sorted|
      ensures sorted[k].idx < |ds| && sorted[k].score == Score(q, ds[sorted[k].idx]) && sorted[k].score > 0
    {
      assert sorted[k] in multiset(scored);
    }
    forall d | 0 <= d < |ds| && Score(q, ds[d]) > 0
      ensures d in order
    {
      assert Scored(Score(q, ds[d]), d) in multiset(sorted);
      var k :| 0 <= k < |sorted| && sorted[k] == Scored(Score(q, ds[d]), d);
      assert order[k] == d;
    }
  }

  /** The token branch of `search`: the entries sharing a token with the
      query, ranked, cut to `top_k`. */
  method TokenSearch(ds: seq<Entry>, query: string, topK: nat) returns (hits: seq<Hit>)
    ensures exists order :: RankedBy(ds, TokenSet(query), order) && hits == HitsOf(ds, TokenSet(query), order, topK)
  {
    var q := TokenSet(query);
    var scored := Overlapping(ds, q);
    var a := new Scored[|scored|](k requires 0 <= k < |scored| => scored[k]);
    assert a[..] == scored;
    SortByScore(a);
    var sorted := a[..];
    SortedRanks(ds, q, scored, sorted);
    var n := if topK < |sorted| then topK else |sorted|;
    hits := seq(n, k requires 0 <= k < n =>
      Hit(sorted[k].score, ds[sorted[k].idx].text, ds[sorted[k].idx].source));
    ghost var order := Positions(sorted);
    assert hits == HitsOf(ds, q, order, topK);
  }

  /** The number of chunks the reports of a batch announce. */
  function TotalChunks(reports: seq<FileReport>): nat {
    if reports == [] then 0 else TotalChunks(reports[..|reports| - 1]) + reports[|reports| - 1].chunks
  }

  /** The corpus grows by exactly the chunk counts the batch reports. */
  lemma {:induction false} PiecesCount(paths: seq<string>, extract: string -> string)
    ensures |Pieces(paths, extract)| == TotalChunks(Reports(paths, extract))
  {
    if paths != [] {
      var init := paths[..|paths| - 1];
      PiecesCount(init, extract);
      var r := Reports(paths, extract);
      assert r[..|r| - 1] == Reports(init, extract);
    }
  }

  /** Entries already in the corpus keep their id, path, text and source
      through a batch, and the new ones follow them file by file, chunk by
      chunk. */
  lemma BatchKeeps(before: seq<Entry>, pieces: seq<(string, string)>, ds: seq<Entry>, vector: bool)
    requires |ds| == |before| + |pieces|
    requires forall k :: 0 <= k < |ds| ==> ds[k] == Attach((before + Appended(|before|, pieces))[k], vector)
    ensures forall k :: 0 <= k < |before| ==>
      ds[k].id == before[k].id && ds[k].path == before[k].path &&
      ds[k].text == before[k].text && ds[k].source == before[k].source
    ensures forall k :: 0 <= k < |pieces| ==>
      ds[|before| + k].path == pieces[k].0 && ds[|before| + k].text == pieces[k].1
  {
    var all := before + Appended(|before|, pieces);
    forall k | 0 <= k < |before|
      ensures ds[k].text == before[k].text
    {
      assert all[k] == before[k];
    }
    forall k | 0 <= k < |pieces|
      ensures ds[|before| + k].path == pieces[k].0 && ds[|before| + k].text == pieces[k].1
    {
      assert all[|before| + k] == Appended(|before|, pieces)[k];
    }
  }

  /** The processor: `self.docs`, whether the embedding model loaded, and
      whether the nearest-neighbour index `self.nn` has been built. */
  class DocumentProcessor {
    const storageDir: string
    const modelLoaded: bool
    var docs: seq<Entry>
    var nnBuilt: bool

    ghost predicate Valid()
      reads this
    {
      Consistent(docs, nnBuilt, modelLoaded)
    }

    /** `DocumentProcessor(storage_dir)`; `modelLoaded` says whether loading
        the embedding model succeeded. */
    constructor (storageDir: string, modelLoaded: bool)
      ensures Valid()
      ensures this.storageDir == storageDir && this.modelLoaded == modelLoaded
      ensures docs == [] && !nnBuilt
    {
      this.storageDir := storageDir;
      this.modelLoaded := modelLoaded;
      docs := [];
      nnBuilt := false;
    }

    /** `process_documents(file_paths, job_update_callback)`. `notify` says
        whether a callback was given and `callbacks` counts its calls. */
    method ProcessDocuments(paths: seq<string>, extract: string -> string, notify: bool)
        returns (created: seq<FileReport>, callbacks: nat)
      requires Valid()
      modifies this
      ensures Valid()
      ensures created == Reports(paths, extract)
      ensures callbacks == if notify then |paths| else 0
      ensures var added := Pieces(paths, extract);
        var vector := modelLoaded && added != [];
        && |docs| == |old(docs)| + |added|
        && (forall i :: 0 <= i < |docs| ==> docs[i] == Attach((old(docs) + Appended(|old(docs)|, added))[i], vector))
        && nnBuilt == (old(nnBuilt) || vector)
    {
      var before := docs;
      var ds, newTexts;
      ds, newTexts, created, callbacks := Ingest(before, paths, extract, notify);
      var vector := modelLoaded && newTexts != [];
      ds := AttachAll(ds, vector);
      BatchConsistent(before, Pieces(paths, extract), ds, nnBuilt, modelLoaded);
      docs := ds;
      if vector {
        // the whole corpus is re-embedded and the index rebuilt
        nnBuilt := true;
      }
    }

    /** `search(query, top_k)` */
    method Search(query: string, topK: nat) returns (outcome: SearchOutcome)
      requires Valid()
      ensures SearchAnswer(docs, nnBuilt, query, topK, outcome)
    {
      if nnBuilt {
        outcome := Nearest(if topK < |docs| then topK else |docs|);
      } else {
        var hits := TokenSearch(docs, query, topK);
        outcome := Overlap(hits);
      }
    }
  }
}
