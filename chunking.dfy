/** `DocumentProcessor.dynamic_chunking`: the trimmed, non-blank lines of a
    document are accumulated into chunks; a chunk is closed when adding the
    next line (after a newline) would make the accumulator exceed 2000
    characters, so a chunk is at most 2000 characters unless it is a single
    longer line. */
module Chunking {
  import opened Text

  /** The accumulator bound of the chunking loop. */
  const MaxChunk: nat := 2000

  /** `[p.strip() for p in lines if p.strip()]` */
  function Paras(lines: seq<string>): (r: seq<string>)
    ensures forall k :: 0 <= k < |r| ==> Trimmed(r[k])
  {
    if lines == [] then []
    else
      TrimIsTrimmed(lines[0]);
      var t := Trim(lines[0]);
      (if t == "" then [] else [t]) + Paras(lines[1..])
  }

  /** The lines the chunker works on: `content.split('\n')`, trimmed, blanks dropped. */
  function Lines(content: string): (r: seq<string>)
    ensures forall k :: 0 <= k < |r| ==> Trimmed(r[k])
  {
    Paras(SplitOn(content, '\n'))
  }

  /** The state of the chunking loop, in terms of lines: the groups already
      closed, the lines in the accumulator `cur`, and `len(cur)`. */
  datatype Acc = Acc(closed: seq<seq<string>>, open: seq<string>, width: nat)

  /** One iteration of the loop: append the line to `cur` when
      `len(cur) + len(p) < 2000` (which adds a newline and the line), else
      close `cur` and restart it with the line. */
  function Step(a: Acc, p: string): Acc {
    if a.width + |p| < MaxChunk then Acc(a.closed, a.open + [p], a.width + 1 + |p|)
    else Acc(a.closed + [a.open], [p], |p|)
  }

  /** The loop state after the lines `ps`, starting from `cur = ''`. */
  function Run(ps: seq<string>): Acc {
    if ps == [] then Acc([], [], 0) else Step(Run(ps[..|ps| - 1]), ps[|ps| - 1])
  }

  /** The lines of each chunk: the closed groups, then the open one unless it is empty. */
  function Groups(ps: seq<string>): seq<seq<string>> {
    var a := Run(ps);
    if a.open == [] then a.closed else a.closed + [a.open]
  }

  /** Each group of lines joined by newlines. */
  function Joined(gs: seq<seq<string>>): (r: seq<string>)
    ensures |r| == |gs|
  {
    seq(|gs|, k requires 0 <= k < |gs| => JoinLines(gs[k]))
  }

  /** The chunks produced for the lines `ps`. */
  function Chunks(ps: seq<string>): seq<string> {
    Joined(Groups(ps))
  }

  /** The chunks produced for a document. */
  function ChunkText(content: string): seq<string> {
    Chunks(Lines(content))
  }

  /** The lines of all groups, in order. */
  function Concat(gs: seq<seq<string>>): seq<string> {
    if gs == [] then [] else gs[0] + Concat(gs[1..])
  }

  lemma {:induction false} ConcatSnoc(gs: seq<seq<string>>, g: seq<string>)
    ensures Concat(gs + [g]) == Concat(gs) + g
  {
    if gs != [] {
      assert (gs + [g])[1..] == gs[1..] + [g];
      ConcatSnoc(gs[1..], g);
    }
  }

  /** The chunks that are not the empty string. */
  function NonBlank(cs: seq<string>): seq<string> {
    if cs == [] then []
    else (if cs[0] == "" then [] else [cs[0]]) + NonBlank(cs[1..])
  }

  /** What the loop keeps true of its accumulator. */
  ghost predicate AccInv(ps: seq<string>, a: Acc) {
    Partition(ps, a) && AllTrimmed(a) && WidthIsCur(a) && OnlyFirstEmpty(ps, a) && Bounded(a)
  }

  /** The closed groups and the open lines are the lines seen, in order. */
  ghost predicate Partition(ps: seq<string>, a: Acc) {
    Concat(a.closed) + a.open == ps
  }

  ghost predicate AllTrimmed(a: Acc) {
    && (forall j :: 0 <= j < |a.open| ==> Trimmed(a.open[j]))
    && (forall k, j :: 0 <= k < |a.closed| && 0 <= j < |a.closed[k]| ==> Trimmed(a.closed[k][j]))
  }

  /** `len(cur)`: one more than the joined open lines until the first chunk is closed. */
  ghost predicate WidthIsCur(a: Acc) {
    && (a.closed == [] ==> a.width == if a.open == [] then 0 else |JoinLines(a.open)| + 1)
    && (a.closed != [] ==> a.open != [] && a.width == |JoinLines(a.open)|)
  }

  /** Only the first closed group can be empty, and it is exactly when the first line reaches the bound. */
  ghost predicate OnlyFirstEmpty(ps: seq<string>, a: Acc) {
    && (forall k :: 0 < k < |a.closed| ==> a.closed[k] != [])
    && ((a.closed != [] && a.closed[0] == []) <==> (ps != [] && |ps[0]| >= MaxChunk))
  }

  /** Groups of two or more lines stay within the bound. */
  ghost predicate Bounded(a: Acc) {
    && (forall k :: 0 <= k < |a.closed| && |a.closed[k]| >= 2 ==> |JoinLines(a.closed[k])| <= MaxChunk)
    && (|a.open| >= 2 ==> |JoinLines(a.open)| <= MaxChunk)
  }

  /** Appending a line to the accumulator keeps its invariant. */
  lemma StepAppendInv(ps: seq<string>, a: Acc, p: string)
    requires AccInv(ps, a) && Trimmed(p) && a.width + |p| < MaxChunk
    ensures AccInv(ps + [p], Step(a, p))
  {
    var b := Step(a, p);
    assert b == Acc(a.closed, a.open + [p], a.width + 1 + |p|);
    assert Partition(ps + [p], b);
    AppendTrimmed(a, p);
    AppendWidth(a, p);
    assert ps != [] ==> (ps + [p])[0] == ps[0];
    assert OnlyFirstEmpty(ps + [p], b);
  }

  lemma AppendTrimmed(a: Acc, p: string)
    requires AllTrimmed(a) && Trimmed(p) && a.width + |p| < MaxChunk
    ensures AllTrimmed(Step(a, p))
  {
    var b := Step(a, p);
    assert b.closed == a.closed && b.open == a.open + [p];
  }

  /** Appending keeps `len(cur)` and the bound on the open lines. */
  lemma AppendWidth(a: Acc, p: string)
    requires WidthIsCur(a) && Bounded(a) && a.width + |p| < MaxChunk
    ensures WidthIsCur(Step(a, p)) && Bounded(Step(a, p))
  {
    var b := Step(a, p);
    assert b.closed == a.closed && b.open == a.open + [p];
    if a.open != [] {
      JoinSnoc(a.open, p);
    }
  }

  /** Closing the accumulator and restarting it with a line keeps its invariant. */
  lemma StepCloseInv(ps: seq<string>, a: Acc, p: string)
    requires AccInv(ps, a) && Trimmed(p) && a.width + |p| >= MaxChunk
    ensures AccInv(ps + [p], Step(a, p))
  {
    var b := Step(a, p);
    assert b.closed == a.closed + [a.open] && b.open == [p];
    ConcatSnoc(a.closed, a.open);
    assert Concat(b.closed) + b.open == ps + [p];
    assert ps != [] ==> (ps + [p])[0] == ps[0];
    assert a.closed == [] ==> a.open == ps;
  }

  lemma StepInv(ps: seq<string>, a: Acc, p: string)
    requires AccInv(ps, a) && Trimmed(p)
    ensures AccInv(ps + [p], Step(a, p))
  {
    if a.width + |p| < MaxChunk {
      StepAppendInv(ps, a, p);
    } else {
      StepCloseInv(ps, a, p);
    }
  }

  lemma {:induction false} RunInv(ps: seq<string>)
    requires forall k :: 0 <= k < |ps| ==> Trimmed(ps[k])
    ensures AccInv(ps, Run(ps))
  {
    if ps != [] {
      var init, p := ps[..|ps| - 1], ps[|ps| - 1];
      assert ps == init + [p];
      RunInv(init);
      StepInv(init, Run(init), p);
    }
  }

  /** What the groups of lines are: a partition of the lines in order, where
      only the first group can be empty (exactly when the first line alone
      reaches the bound), and any group of two or more lines joins to at most
      2000 characters. */
  lemma GroupsShape(ps: seq<string>)
    requires forall k :: 0 <= k < |ps| ==> Trimmed(ps[k])
    ensures Concat(Groups(ps)) == ps
    ensures forall k, j :: 0 <= k < |Groups(ps)| && 0 <= j < |Groups(ps)[k]| ==> Trimmed(Groups(ps)[k][j])
    ensures forall k :: 0 < k < |Groups(ps)| ==> Groups(ps)[k] != []
    ensures (|Groups(ps)| > 0 && Groups(ps)[0] == []) <==> (ps != [] && |ps[0]| >= MaxChunk)
    ensures forall k :: 0 <= k < |Groups(ps)| && |Groups(ps)[k]| >= 2 ==> |JoinLines(Groups(ps)[k])| <= MaxChunk
  {
    RunInv(ps);
    var a := Run(ps);
    if a.open == [] {
      assert Groups(ps) == a.closed;
    } else {
      assert Groups(ps) == a.closed + [a.open];
      ConcatSnoc(a.closed, a.open);
    }
  }

  /** A group of trimmed lines joins to the empty string only when it is empty. */
  lemma JoinBlankIff(g: seq<string>)
    requires forall j :: 0 <= j < |g| ==> Trimmed(g[j])
    ensures JoinLines(g) == "" <==> g == []
  {
    if g != [] {
      JoinTrimmed(g);
    }
  }

  /** The string held in `cur` for a given accumulator: it starts with a
      newline until the first chunk is closed. */
  function Cur(a: Acc): string {
    if a.closed == [] then (if a.open == [] then "" else "\n" + JoinLines(a.open))
    else JoinLines(a.open)
  }

  /** `cur.strip()` is the open lines joined by newlines. */
  lemma TrimCur(ps: seq<string>, a: Acc)
    requires AccInv(ps, a)
    ensures Trim(Cur(a)) == JoinLines(a.open)
    ensures |Cur(a)| == a.width
  {
    if a.open != [] {
      JoinTrimmed(a.open);
      if a.closed == [] {
        TrimAfterNewline(JoinLines(a.open));
      } else {
        TrimOfTrimmed(JoinLines(a.open));
      }
    }
  }

  /** Appending a line to `cur` adds a newline and the line. */
  lemma CurAppend(a: Acc, p: string)
    requires (a.closed != [] ==> a.open != []) && a.width + |p| < MaxChunk
    ensures Cur(Step(a, p)) == Cur(a) + "\n" + p
    ensures Step(a, p).closed == a.closed
  {
    var b := Step(a, p);
    assert b == Acc(a.closed, a.open + [p], a.width + 1 + |p|);
    if a.open == [] {
      assert a.closed == [] && b.open == [p];
      assert Cur(b) == "\n" + p;
    } else {
      JoinSnoc(a.open, p);
      var j := JoinLines(a.open);
      if a.closed == [] {
        assert Cur(b) == "\n" + (j + "\n" + p);
        assert Cur(a) == "\n" + j;
      } else {
        assert Cur(b) == j + "\n" + p;
      }
    }
  }

  /** Closing `cur` adds its stripped text as a chunk and restarts it with the line. */
  lemma CurClose(ps: seq<string>, a: Acc, p: string)
    requires AccInv(ps, a) && a.width + |p| >= MaxChunk
    ensures Cur(Step(a, p)) == p
    ensures Joined(Step(a, p).closed) == Joined(a.closed) + [Trim(Cur(a))]
  {
    TrimCur(ps, a);
    JoinedSnoc(a.closed, a.open);
  }

  lemma JoinedSnoc(gs: seq<seq<string>>, g: seq<string>)
    ensures Joined(gs + [g]) == Joined(gs) + [JoinLines(g)]
  {
  }

  /** The chunks left after the loop: the closed groups, then `cur.strip()` if it is not empty. */
  lemma FinalChunks(ps: seq<string>)
    requires forall k :: 0 <= k < |ps| ==> Trimmed(ps[k])
    ensures var a := Run(ps);
      Chunks(ps) == Joined(a.closed) + (if Trim(Cur(a)) != "" then [Trim(Cur(a))] else [])
  {
    RunInv(ps);
    var a := Run(ps);
    TrimCur(ps, a);
    JoinBlankIff(a.open);
    if a.open != [] {
      assert Trim(Cur(a)) != "";
      assert Groups(ps) == a.closed + [a.open];
      JoinedSnoc(a.closed, a.open);
    } else {
      assert Trim(Cur(a)) == "";
      assert Groups(ps) == a.closed;
    }
  }

  /** `dynamic_chunking(content, doc_type)`: the loop over the lines with the
      accumulator `cur`. The result is `ChunkText(content)` whatever `docType` is. */
  method DynamicChunking(content: string, docType: string) returns (chunks: seq<string>)
    ensures chunks == ChunkText(content)
  {
    var paras := Lines(content);
    chunks := [];
    var cur := "";
    ghost var acc := Acc([], [], 0);
    for i := 0 to |paras|
      invariant acc == Run(paras[..i])
      invariant chunks == Joined(acc.closed)
      invariant cur == Cur(acc)
    {
      var p := paras[i];
      PrefixStep(paras, i);
      if |cur| + |p| < MaxChunk {
        CurAppend(acc, p);
        cur := cur + "\n" + p;
      } else {
        CurClose(paras[..i], acc, p);
        chunks := chunks + [Trim(cur)];
        cur := p;
      }
      acc := Step(acc, p);
    }
    assert paras[..|paras|] == paras;
    FinalChunks(paras);
    if Trim(cur) != "" {
      chunks := chunks + [Trim(cur)];
    }
  }

  /** The loop state before line `i` satisfies the invariant, and the state
      after it is one `Step` further. */
  lemma PrefixStep(ps: seq<string>, i: nat)
    requires i < |ps|
    requires forall k :: 0 <= k < |ps| ==> Trimmed(ps[k])
    ensures AccInv(ps[..i], Run(ps[..i]))
    ensures Run(ps[..i + 1]) == Step(Run(ps[..i]), ps[i])
  {
    assert ps[..i + 1][..i] == ps[..i];
    RunInv(ps[..i]);
  }
  // ---------------------------------------------------------------------
  // What the chunks of a document are
  // ---------------------------------------------------------------------

  /** The chunks are the line groups joined by newlines, and the groups are
      the document's trimmed non-blank lines, in order, each exactly once. */
  lemma ChunksPartitionLines(content: string)
    ensures |ChunkText(content)| == |Groups(Lines(content))|
    ensures forall k :: 0 <= k < |ChunkText(content)| ==> ChunkText(content)[k] == JoinLines(Groups(Lines(content))[k])
    ensures Concat(Groups(Lines(content))) == Lines(content)
  {
    GroupsShape(Lines(content));
  }

  /** A group of two or more lines joins to at most 2000 characters, so a
      longer one is a single line. */
  lemma GroupBound(ps: seq<string>, k: nat)
    requires forall i :: 0 <= i < |ps| ==> Trimmed(ps[i])
    requires k < |Groups(ps)|
    ensures |Groups(ps)[k]| >= 2 ==> |JoinLines(Groups(ps)[k])| <= MaxChunk
    ensures |JoinLines(Groups(ps)[k])| > MaxChunk ==>
      Groups(ps)[k] == [JoinLines(Groups(ps)[k])] && JoinLines(Groups(ps)[k]) in ps
  {
    var gs := Groups(ps);
    GroupsShape(ps);
    if |JoinLines(gs[k])| > MaxChunk {
      assert |gs[k]| == 1;
      ConcatHas(gs, k, 0);
    }
  }

  /** A chunk built from two or more lines is at most 2000 characters long. */
  lemma ChunkBound(content: string)
    ensures forall k :: 0 <= k < |ChunkText(content)| && |Groups(Lines(content))[k]| >= 2 ==>
      |ChunkText(content)[k]| <= MaxChunk
  {
    var ps := Lines(content);
    var gs := Groups(ps);
    forall k | 0 <= k < |gs| && |gs[k]| >= 2
      ensures |JoinLines(gs[k])| <= MaxChunk
    {
      GroupBound(ps, k);
    }
  }

  /** A chunk longer than 2000 characters is one whole line of the document. */
  lemma LongChunkIsOneLine(content: string)
    ensures forall k :: 0 <= k < |ChunkText(content)| && |ChunkText(content)[k]| > MaxChunk ==>
      Groups(Lines(content))[k] == [ChunkText(content)[k]] && ChunkText(content)[k] in Lines(content)
  {
    var ps := Lines(content);
    var gs := Groups(ps);
    forall k | 0 <= k < |gs| && |JoinLines(gs[k])| > MaxChunk
      ensures gs[k] == [JoinLines(gs[k])] && JoinLines(gs[k]) in ps
    {
      GroupBound(ps, k);
    }
  }

  /** A line of a group is a line of the concatenation. */
  lemma {:induction false} ConcatHas(gs: seq<seq<string>>, k: nat, j: nat)
    requires k < |gs| && j < |gs[k]|
    ensures gs[k][j] in Concat(gs)
  {
    if k > 0 {
      ConcatHas(gs[1..], k - 1, j);
    }
  }

  /** Only the first chunk can be the empty string, and it is exactly when
      the first non-blank line is 2000 characters or longer. */
  lemma OnlyFirstChunkEmpty(content: string)
    ensures forall k :: 0 <= k < |ChunkText(content)| ==>
      (ChunkText(content)[k] == "" <==> k == 0 && |Lines(content)[0]| >= MaxChunk)
  {
    var ps := Lines(content);
    var gs := Groups(ps);
    GroupsShape(ps);
    forall k | 0 <= k < |gs|
      ensures JoinLines(gs[k]) == "" <==> gs[k] == []
    {
      JoinBlankIff(gs[k]);
    }
    assert gs != [] ==> ps != [];
  }

  /** A document has no chunks exactly when it has no non-blank line. */
  lemma NoLinesNoChunks(content: string)
    ensures ChunkText(content) == [] <==> Lines(content) == []
  {
    var ps := Lines(content);
    GroupsShape(ps);
  }

  lemma {:induction false} AllSpaceStrip(s: string)
    requires forall i :: 0 <= i < |s| ==> IsSpace(s[i])
    ensures StripLeft(s, IsSpace) == ""
  {
    if s != [] {
      AllSpaceStrip(s[1..]);
    }
  }

  lemma {:induction false} BlankParas(lines: seq<string>)
    requires forall k, i :: 0 <= k < |lines| && 0 <= i < |lines[k]| ==> IsSpace(lines[k][i])
    ensures Paras(lines) == []
  {
    if lines != [] {
      AllSpaceStrip(lines[0]);
      BlankParas(lines[1..]);
    }
  }

  /** A document made only of whitespace yields no chunks. */
  lemma BlankDocument(content: string)
    requires forall i :: 0 <= i < |content| ==> IsSpace(content[i])
    ensures ChunkText(content) == []
  {
    var lines := SplitOn(content, '\n');
    forall k, i | 0 <= k < |lines| && 0 <= i < |lines[k]|
      ensures IsSpace(lines[k][i])
    {
      SplitOnChars(content, '\n', k, lines[k][i]);
    }
    BlankParas(lines);
    NoLinesNoChunks(content);
  }

  /** The groups that are not empty. */
  function NonEmptyGroups(gs: seq<seq<string>>): seq<seq<string>> {
    if gs == [] then []
    else (if gs[0] == [] then [] else [gs[0]]) + NonEmptyGroups(gs[1..])
  }

  lemma {:induction false} NonEmptyGroupsConcat(gs: seq<seq<string>>)
    ensures Concat(NonEmptyGroups(gs)) == Concat(gs)
    ensures forall k :: 0 <= k < |NonEmptyGroups(gs)| ==> NonEmptyGroups(gs)[k] != []
  {
    if gs != [] {
      NonEmptyGroupsConcat(gs[1..]);
      assert Concat(gs) == gs[0] + Concat(gs[1..]);
      if gs[0] != [] {
        assert NonEmptyGroups(gs) == [gs[0]] + NonEmptyGroups(gs[1..]);
        assert NonEmptyGroups(gs)[1..] == NonEmptyGroups(gs[1..]);
      } else {
        assert NonEmptyGroups(gs) == NonEmptyGroups(gs[1..]);
      }
    }
  }

  lemma {:induction false} NonBlankJoined(gs: seq<seq<string>>)
    requires forall k, j :: 0 <= k < |gs| && 0 <= j < |gs[k]| ==> Trimmed(gs[k][j])
    ensures NonBlank(Joined(gs)) == Joined(NonEmptyGroups(gs))
  {
    if gs != [] {
      assert Joined(gs)[1..] == Joined(gs[1..]);
      JoinBlankIff(gs[0]);
      NonBlankJoined(gs[1..]);
      if gs[0] != [] {
        assert Joined([gs[0]] + NonEmptyGroups(gs[1..])) == [JoinLines(gs[0])] + Joined(NonEmptyGroups(gs[1..]));
      }
    }
  }

  /** Joining the joined groups is joining all their lines. */
  lemma {:induction false} JoinConcat(gs: seq<seq<string>>)
    requires forall k :: 0 <= k < |gs| ==> gs[k] != []
    ensures JoinLines(Joined(gs)) == JoinLines(Concat(gs))
  {
    if |gs| == 1 {
      assert Concat(gs) == gs[0];
    } else if |gs| > 1 {
      var rest := gs[1..];
      assert Joined(gs) == [JoinLines(gs[0])] + Joined(rest);
      JoinConcat(rest);
      JoinAppend([JoinLines(gs[0])], Joined(rest));
      assert Concat(rest) != [] by {
        assert Concat(rest) == rest[0] + Concat(rest[1..]);
      }
      JoinAppend(gs[0], Concat(rest));
    }
  }

  /** Joining the non-empty chunks with newlines gives back the document's
      trimmed non-blank lines joined with newlines: nothing is lost,
      duplicated or reordered. */
  lemma ChunksRejoin(content: string)
    ensures JoinLines(NonBlank(ChunkText(content))) == JoinLines(Lines(content))
  {
    var ps := Lines(content);
    var gs := Groups(ps);
    GroupsShape(ps);
    NonBlankJoined(gs);
    NonEmptyGroupsConcat(gs);
    JoinConcat(NonEmptyGroups(gs));
  }
}
