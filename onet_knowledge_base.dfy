/**
 * The text preparation of the offline knowledge-base script: cleaning a cell,
 * splitting a document into overlapping word windows, and turning each
 * occupation into numbered chunk records.
 */
module OnetKnowledgeBase {
  import opened PyText
  import opened Numbers

  /** A spreadsheet cell as pandas hands it over: a string, or anything else (NaN for an empty cell, a number). */
  datatype Cell = Str(s: string) | NotStr

  /** Window size and overlap that `chunk_text` uses when called without them. */
  const DefaultMaxWords := 200
  const DefaultOverlap := 40

  /** Window size and overlap that `build_knowledge_base` passes to `chunk_text`. */
  const RecordMaxWords := 200
  const RecordOverlap := 50

  /** Fallback texts for an occupation without task statements or work-context entries. */
  const NoTasks := "No specific tasks listed."
  const NoContext := "No specific work context listed."

  // ----- clean_text -----

  /**
   * `clean_text`: a non-string becomes "", a string has every whitespace run
   * replaced by one space and its ends stripped, which is the same as joining
   * its words with single spaces.
   */
  function CleanText(text: Cell): (r: string)
    ensures text.NotStr? ==> r == ""
    ensures text.Str? ==> r == Join(Words(text.s))
    ensures IsClean(r)
  {
    match text
    case NotStr => ""
    case Str(s) =>
      CleanIsJoinOfWords(s);
      WordsAreWords(s);
      JoinIsClean(Words(s));
      Strip(Collapse(s))
  }

  /** Cleaning an already cleaned string changes nothing. */
  lemma CleanTextIdempotent(text: Cell)
    ensures CleanText(Str(CleanText(text))) == CleanText(text)
  {
    if text.Str? {
      WordsAreWords(text.s);
      WordsOfJoin(Words(text.s));
    }
  }

  // ----- chunk_text -----

  /** Python's `ws[start:end]` for `start >= 0`; a negative `end` counts from the back. */
  function PySlice(ws: seq<string>, start: nat, end: int): (r: seq<string>)
    ensures start <= end <= |ws| ==> r == ws[start..end]
    ensures 0 <= end <= start ==> r == []
    ensures end < 0 && start <= end + |ws| ==> r == ws[start..end + |ws|]
    ensures end < 0 && end + |ws| <= start ==> r == []
    ensures start <= |ws| < end ==> r == ws[start..]
  {
    var n := |ws|;
    var lo := Min(start, n);
    var hi := if end < 0 then Max(end + n, 0) else Min(end, n);
    if lo < hi then ws[lo..hi] else []
  }

  /** `min(start + max_words, total_words)`: where the window starting at `start` ends. */
  function WindowEnd(n: nat, m: int, start: nat): int {
    Min(start + m, n)
  }

  /** `max(end - overlap, start + 1)`: where the next window starts. */
  function NextStart(n: nat, m: int, o: int, start: nat): (r: nat)
    ensures r > start
  {
    Max(WindowEnd(n, m, start) - o, start + 1)
  }

  /** The values `start` takes in the loop of `chunk_text`, from `start` on, over `n` words. */
  function Starts(n: nat, m: int, o: int, start: nat): seq<nat>
    decreases n - start
  {
    if start >= n then []
    else if WindowEnd(n, m, start) >= n then [start]
    else [start] + Starts(n, m, o, NextStart(n, m, o, start))
  }

  /** The chunks the loop of `chunk_text` appends, from `start` on. */
  function ChunksFrom(ws: seq<string>, m: int, o: int, start: nat): seq<string>
    decreases |ws| - start
  {
    if start >= |ws| then []
    else
      var end := WindowEnd(|ws|, m, start);
      var kept := Kept(Strip(Join(PySlice(ws, start, end))));
      if end >= |ws| then kept else kept + ChunksFrom(ws, m, o, NextStart(|ws|, m, o, start))
  }

  /** `if chunk: chunks.append(chunk)`: an empty chunk is dropped. */
  function Kept(chunk: string): seq<string> {
    if chunk != "" then [chunk] else []
  }

  /** What `chunk_text(text, max_words, overlap)` returns. */
  function ChunkTextSpec(text: Cell, m: int, o: int): seq<string> {
    if text.NotStr? || Strip(text.s) == "" then [] else ChunksFrom(Words(text.s), m, o, 0)
  }

  /** `chunk_text`: the windowed loop over the words of `text`. */
  method ChunkText(text: Cell, maxWords: int := DefaultMaxWords, overlap: int := DefaultOverlap) returns (chunks: seq<string>)
    ensures chunks == ChunkTextSpec(text, maxWords, overlap)
    ensures text.NotStr? || Words(text.s) == [] ==> chunks == []
  {
    if text.NotStr? || Strip(text.s) == "" {
      if text.Str? {
        BlankIffNoWords(text.s);
      }
      return [];
    }
    var words := Words(text.s);
    if |words| == 0 {
      return [];
    }
    chunks := [];
    var start: nat := 0;
    var total := |words|;
    while start < total
      invariant chunks + ChunksFrom(words, maxWords, overlap, start) == ChunksFrom(words, maxWords, overlap, 0)
      decreases total - start
    {
      var end := Min(start + maxWords, total);
      var chunk := Strip(Join(PySlice(words, start, end)));
      assert end == WindowEnd(total, maxWords, start);
      ChunksFromStep(words, maxWords, overlap, start, chunks);
      ghost var before := chunks;
      if chunk != "" {
        chunks := chunks + [chunk];
      }
      assert chunks == before + Kept(chunk);
      if end >= total {
        break;
      }
      var nextStart := Max(end - overlap, start + 1);
      assert nextStart == NextStart(total, maxWords, overlap, start);
      start := nextStart;
    }
  }

  /** One turn of the loop of `chunk_text`, after the chunks `done` are already collected. */
  lemma ChunksFromStep(ws: seq<string>, m: int, o: int, start: nat, done: seq<string>)
    requires start < |ws|
    ensures var end := WindowEnd(|ws|, m, start);
      var kept := Kept(Strip(Join(PySlice(ws, start, end))));
      if end >= |ws| then done + ChunksFrom(ws, m, o, start) == done + kept
      else done + ChunksFrom(ws, m, o, start) == (done + kept) + ChunksFrom(ws, m, o, NextStart(|ws|, m, o, start))
  {
  }

  /** `not text.strip()` holds exactly when `text.split()` is empty. */
  lemma BlankIffNoWords(s: string)
    ensures Strip(s) == "" <==> Words(s) == []
  {
    var t := StripLeft(s);
    if |t| > 0 {
      var r := StripRight(t);
      assert |r| > 0 by {
        assert !IsSpace(t[0]);
      }
    }
  }

  /** The visited starts lie in `[start, n)`, strictly increase, and begin at `start`. */
  lemma {:induction false} StartsIncrease(n: nat, m: int, o: int, start: nat)
    ensures start < n ==> |Starts(n, m, o, start)| > 0 && Starts(n, m, o, start)[0] == start
    ensures forall i :: 0 <= i < |Starts(n, m, o, start)| ==> start <= Starts(n, m, o, start)[i] < n
    ensures forall i :: 0 < i < |Starts(n, m, o, start)| ==>
      Starts(n, m, o, start)[i - 1] < Starts(n, m, o, start)[i]
    decreases n - start
  {
    if start < n && WindowEnd(n, m, start) < n {
      var next := NextStart(n, m, o, start);
      StartsIncrease(n, m, o, next);
      var S, T := Starts(n, m, o, start), Starts(n, m, o, next);
      assert S == [start] + T;
      forall i | 0 < i < |S| ensures S[i - 1] < S[i] {
        if i > 1 {
          assert S[i - 1] == T[i - 2] && S[i] == T[i - 1];
        }
      }
    }
  }

  /**
   * Every window but the last ends before the final word, and the next one
   * begins at `max(end - overlap, start + 1)`; with a positive window size and
   * a non-negative overlap the last window ends at the final word (the loop
   * leaves through its `break`).
   */
  lemma {:induction false} StartsSteps(n: nat, m: int, o: int, start: nat)
    ensures var S := Starts(n, m, o, start);
      forall i :: 0 <= i < |S| - 1 ==> WindowEnd(n, m, S[i]) < n && S[i + 1] == NextStart(n, m, o, S[i])
    ensures var S := Starts(n, m, o, start);
      m >= 1 && o >= 0 && |S| > 0 ==> WindowEnd(n, m, S[|S| - 1]) >= n
    decreases n - start
  {
    if start < n && WindowEnd(n, m, start) < n {
      var S, T := Starts(n, m, o, start), Starts(n, m, o, NextStart(n, m, o, start));
      StartsSteps(n, m, o, NextStart(n, m, o, start));
      StartsIncrease(n, m, o, NextStart(n, m, o, start));
      assert S == [start] + T;
      forall i | 0 <= i < |S| - 1
        ensures WindowEnd(n, m, S[i]) < n && S[i + 1] == NextStart(n, m, o, S[i])
      {
        if i > 0 {
          assert S[i] == T[i - 1] && S[i + 1] == T[i];
        }
      }
      if m >= 1 && o >= 0 {
        assert |T| > 0;
        assert S[|S| - 1] == T[|T| - 1];
      }
    }
  }

  /** The window at `start` is a non-empty slice of words, kept as its own join. */
  lemma WindowKept(ws: seq<string>, m: int, start: nat)
    requires AllWords(ws) && m >= 1 && start < |ws|
    ensures var end := WindowEnd(|ws|, m, start);
      start < end <= |ws|
      && Kept(Strip(Join(PySlice(ws, start, end)))) == [Join(ws[start..end])]
  {
    var end := WindowEnd(|ws|, m, start);
    var window := ws[start..end];
    assert PySlice(ws, start, end) == window;
    assert AllWords(window) by {
      forall i | 0 <= i < |window| ensures IsWord(window[i]) {
        assert window[i] == ws[start + i];
      }
    }
    JoinEnds(window);
    JoinIsClean(window);
    StripOfClean(Join(window));
  }

  /**
   * With `max_words >= 1` every window the loop visits yields one chunk,
   * the one made of that window's words.
   */
  lemma {:induction false} ChunksAreWindows(ws: seq<string>, m: int, o: int, start: nat)
    requires AllWords(ws) && m >= 1
    ensures var S := Starts(|ws|, m, o, start);
      |ChunksFrom(ws, m, o, start)| == |S|
      && forall i :: 0 <= i < |S| ==>
        S[i] < WindowEnd(|ws|, m, S[i]) <= |ws|
        && ChunksFrom(ws, m, o, start)[i] == Join(ws[S[i]..WindowEnd(|ws|, m, S[i])])
    decreases |ws| - start
  {
    var n := |ws|;
    if start < n {
      var end := WindowEnd(n, m, start);
      var window := ws[start..end];
      WindowKept(ws, m, start);
      if end < n {
        var next := NextStart(n, m, o, start);
        ChunksAreWindows(ws, m, o, next);
        var S, T := Starts(n, m, o, start), Starts(n, m, o, next);
        var C, D := ChunksFrom(ws, m, o, start), ChunksFrom(ws, m, o, next);
        assert S == [start] + T;
        assert C == [Join(window)] + D;
        WindowsCons(ws, m, start, T, D);
      }
    }
  }

  /** Putting the window at `start` in front of a list of windows and their chunks. */
  lemma WindowsCons(ws: seq<string>, m: int, start: nat, T: seq<nat>, D: seq<string>)
    requires start < WindowEnd(|ws|, m, start) <= |ws|
    requires |D| == |T| && forall i :: 0 <= i < |T| ==>
      T[i] < WindowEnd(|ws|, m, T[i]) <= |ws| && D[i] == Join(ws[T[i]..WindowEnd(|ws|, m, T[i])])
    ensures var S, C := [start] + T, [Join(ws[start..WindowEnd(|ws|, m, start)])] + D;
      |C| == |S| && forall i :: 0 <= i < |S| ==>
        S[i] < WindowEnd(|ws|, m, S[i]) <= |ws| && C[i] == Join(ws[S[i]..WindowEnd(|ws|, m, S[i])])
  {
    var S, C := [start] + T, [Join(ws[start..WindowEnd(|ws|, m, start)])] + D;
    forall i | 0 < i < |S|
      ensures S[i] < WindowEnd(|ws|, m, S[i]) <= |ws| && C[i] == Join(ws[S[i]..WindowEnd(|ws|, m, S[i])])
    {
      assert S[i] == T[i - 1] && C[i] == D[i - 1];
    }
  }

  /** Stripping a clean string changes nothing. */
  lemma StripOfClean(s: string)
    requires IsClean(s)
    ensures Strip(s) == s
  {
    assert StripLeft(s) == s;
  }

  /** Each chunk of `chunk_text` is the join of a contiguous window of the text's words, holding between 1 and `max_words` of them. */
  lemma ChunkWindows(s: string, m: int, o: int)
    requires m >= 1
    ensures var ws, S, C := Words(s), Starts(|Words(s)|, m, o, 0), ChunkTextSpec(Str(s), m, o);
      |C| == |S|
      && forall i :: 0 <= i < |C| ==>
        S[i] < WindowEnd(|ws|, m, S[i]) <= |ws|
        && C[i] == Join(ws[S[i]..WindowEnd(|ws|, m, S[i])])
        && Words(C[i]) == ws[S[i]..WindowEnd(|ws|, m, S[i])]
        && 1 <= |Words(C[i])| <= m
  {
    var ws := Words(s);
    WordsAreWords(s);
    BlankIffNoWords(s);
    assert ChunkTextSpec(Str(s), m, o) == ChunksFrom(ws, m, o, 0);
    WindowsOfWords(ws, m, o);
  }

  /** The chunks of a word sequence are the joins of its windows, and split back into them. */
  lemma WindowsOfWords(ws: seq<string>, m: int, o: int)
    requires AllWords(ws) && m >= 1
    ensures var S, C := Starts(|ws|, m, o, 0), ChunksFrom(ws, m, o, 0);
      |C| == |S|
      && forall i :: 0 <= i < |C| ==>
        S[i] < WindowEnd(|ws|, m, S[i]) <= |ws|
        && C[i] == Join(ws[S[i]..WindowEnd(|ws|, m, S[i])])
        && Words(C[i]) == ws[S[i]..WindowEnd(|ws|, m, S[i])]
  {
    ChunksAreWindows(ws, m, o, 0);
    var S, C := Starts(|ws|, m, o, 0), ChunksFrom(ws, m, o, 0);
    forall i | 0 <= i < |C|
      ensures Words(C[i]) == ws[S[i]..WindowEnd(|ws|, m, S[i])]
    {
      WindowWords(ws, S[i], WindowEnd(|ws|, m, S[i]));
    }
  }

  /** Joining a slice of words and splitting it again gives the slice back. */
  lemma WindowWords(ws: seq<string>, a: nat, b: nat)
    requires AllWords(ws) && a <= b <= |ws|
    ensures Words(Join(ws[a..b])) == ws[a..b]
  {
    var window := ws[a..b];
    assert AllWords(window) by {
      forall j | 0 <= j < |window| ensures IsWord(window[j]) {
        assert window[j] == ws[a + j];
      }
    }
    WordsOfJoin(window);
  }

  /** Word `k` lies inside one of the windows starting at `S`. */
  ghost predicate Covered(S: seq<nat>, n: nat, m: int, k: nat) {
    exists i :: 0 <= i < |S| && S[i] <= k < WindowEnd(n, m, S[i])
  }

  /**
   * With `max_words >= 1` and `overlap >= 0` the first chunk starts at word 0,
   * the last ends at the final word, and every word lies in some chunk.
   */
  lemma ChunksCoverWords(n: nat, m: int, o: int)
    requires m >= 1 && o >= 0 && n > 0
    ensures var S := Starts(n, m, o, 0);
      |S| > 0 && S[0] == 0 && WindowEnd(n, m, S[|S| - 1]) == n
    ensures var S := Starts(n, m, o, 0);
      forall k: nat :: k < n ==> Covered(S, n, m, k)
  {
    var S := Starts(n, m, o, 0);
    StartsIncrease(n, m, o, 0);
    StartsSteps(n, m, o, 0);
    forall k: nat | k < n
      ensures Covered(S, n, m, k)
    {
      // the last window starting at or before k also reaches past k
      var i := 0;
      while i + 1 < |S| && S[i + 1] <= k
        invariant 0 <= i < |S| && S[i] <= k
      {
        i := i + 1;
      }
      if i + 1 < |S| {
        assert S[i + 1] == Max(WindowEnd(n, m, S[i]) - o, S[i] + 1);
      }
      assert S[i] <= k < WindowEnd(n, m, S[i]);
    }
  }

  /**
   * With `0 <= overlap < max_words` every chunk but the last has exactly
   * `max_words` words, and the next one begins `overlap` words before its end.
   */
  lemma ChunksOverlap(n: nat, m: int, o: int)
    requires 0 <= o < m
    ensures var S := Starts(n, m, o, 0);
      forall i :: 0 <= i < |S| - 1 ==> WindowEnd(n, m, S[i]) == S[i] + m && S[i + 1] == S[i] + m - o
  {
    StartsSteps(n, m, o, 0);
  }

  /** A text with at least one word yields at least one chunk, whatever the overlap. */
  lemma ChunkTextNonEmpty(s: string, m: int, o: int)
    requires m >= 1 && Words(s) != []
    ensures |ChunkTextSpec(Str(s), m, o)| >= 1
  {
    BlankIffNoWords(s);
    WordsAreWords(s);
    StartsIncrease(|Words(s)|, m, o, 0);
    ChunksAreWindows(Words(s), m, o, 0);
  }

  // ----- build_knowledge_base: one record per chunk -----

  /** An occupation row: code, title and description cells. */
  datatype Occupation = Occupation(code: string, title: Cell, description: Cell)

  /** One knowledge-base entry. */
  datatype Record = Record(docId: string, title: string, content: string)

  /** The document that `build_knowledge_base` writes for one occupation before chunking. */
  function CombinedText(title: string, description: string, tasks: string, context: string): string {
    "Occupation: " + title + "\n\nSummary: " + description + "\n\nKey Tasks:\n" + tasks
    + "\n\nWork Environment and Context includes: " + context
  }

  function DocId(code: string, idx: nat): string {
    code + "#" + Decimal(idx)
  }

  function ChunkTitle(title: string, idx: nat): string {
    title + " (Chunk " + Decimal(idx) + ")"
  }

  /** The combined document of an occupation, with the defaults for missing tasks and work context. */
  function OccupationText(occ: Occupation, tasks: map<string, string>, context: map<string, string>): string {
    var t := if occ.code in tasks then tasks[occ.code] else NoTasks;
    var c := if occ.code in context then context[occ.code] else NoContext;
    CombinedText(CleanText(occ.title), CleanText(occ.description), t, c)
  }

  /** The chunks of an occupation's document, or the whole document when there are none. */
  function OccupationChunks(occ: Occupation, tasks: map<string, string>, context: map<string, string>): seq<string> {
    var text := OccupationText(occ, tasks, context);
    var chunks := ChunkTextSpec(Str(text), RecordMaxWords, RecordOverlap);
    if chunks == [] then [text] else chunks
  }

  /** Records numbered from 1 in chunk order. */
  function NumberedRecords(code: string, title: string, chunks: seq<string>): seq<Record> {
    seq(|chunks|, i requires 0 <= i < |chunks| => Record(DocId(code, i + 1), ChunkTitle(title, i + 1), chunks[i]))
  }

  /** An occupation ready for numbering: its code, cleaned title and chunks. */
  datatype Entry = Entry(code: string, title: string, chunks: seq<string>)

  function OccupationEntry(occ: Occupation, tasks: map<string, string>, context: map<string, string>): Entry {
    Entry(occ.code, CleanText(occ.title), OccupationChunks(occ, tasks, context))
  }

  function EntryRecords(e: Entry): seq<Record> {
    NumberedRecords(e.code, e.title, e.chunks)
  }

  function OccupationRecords(occ: Occupation, tasks: map<string, string>, context: map<string, string>): seq<Record> {
    EntryRecords(OccupationEntry(occ, tasks, context))
  }

  /** The records of a list of entries, entry after entry. */
  function Catalogue(es: seq<Entry>): seq<Record>
    decreases |es|
  {
    if |es| == 0 then [] else Catalogue(es[..|es| - 1]) + EntryRecords(es[|es| - 1])
  }

  function Entries(occs: seq<Occupation>, tasks: map<string, string>, context: map<string, string>): (es: seq<Entry>)
    ensures |es| == |occs| && forall k :: 0 <= k < |occs| ==> es[k] == OccupationEntry(occs[k], tasks, context)
  {
    seq(|occs|, k requires 0 <= k < |occs| => OccupationEntry(occs[k], tasks, context))
  }

  /** The records of all occupations, occupation after occupation, in row order. */
  function KnowledgeBase(occs: seq<Occupation>, tasks: map<string, string>, context: map<string, string>): seq<Record> {
    Catalogue(Entries(occs, tasks, context))
  }

  lemma NumberedRecordsSnoc(code: string, title: string, chunks: seq<string>, k: nat)
    requires k < |chunks|
    ensures NumberedRecords(code, title, chunks[..k + 1])
      == NumberedRecords(code, title, chunks[..k]) + [Record(DocId(code, k + 1), ChunkTitle(title, k + 1), chunks[k])]
  {
  }

  lemma CatalogueSnoc(es: seq<Entry>, j: nat)
    requires j < |es|
    ensures Catalogue(es[..j + 1]) == Catalogue(es[..j]) + EntryRecords(es[j])
  {
    assert es[..j + 1][..j] == es[..j];
  }

  /** In a document id the first `#` comes right after the code. */
  lemma HashAfterCode(c: string, i: nat)
    requires '#' !in c
    ensures |DocId(c, i)| > |c| && DocId(c, i)[|c|] == '#'
    ensures forall j :: 0 <= j < |c| ==> DocId(c, i)[j] != '#'
  {
    var d := DocId(c, i);
    forall j | 0 <= j < |c| ensures d[j] != '#' {
      assert d[j] == c[j];
    }
  }

  /** A code without `#` and a record number can be read back from a document id. */
  lemma DocIdInjective(c1: string, i1: nat, c2: string, i2: nat)
    requires '#' !in c1 && '#' !in c2
    requires DocId(c1, i1) == DocId(c2, i2)
    ensures c1 == c2 && i1 == i2
  {
    var d1, d2 := DocId(c1, i1), DocId(c2, i2);
    HashAfterCode(c1, i1);
    HashAfterCode(c2, i2);
    assert |c1| == |c2|;
    assert c1 == d1[..|c1|] && c2 == d2[..|c2|];
    assert Decimal(i1) == d1[|c1| + 1..] && Decimal(i2) == d2[|c2| + 1..];
    DecimalInjective(i1, i2);
  }

  /**
   * One record per chunk, in chunk order: record `i` (from 0) has id `code#(i+1)`,
   * title `title (Chunk i+1)` and the `i`-th chunk as content; no two share an id.
   */
  lemma NumberedRecordsShape(code: string, title: string, chunks: seq<string>)
    ensures var R := NumberedRecords(code, title, chunks);
      |R| == |chunks|
      && (forall i :: 0 <= i < |R| ==>
            R[i].docId == DocId(code, i + 1) && R[i].title == ChunkTitle(title, i + 1) && R[i].content == chunks[i])
      && (forall i, j :: 0 <= i < j < |R| ==> R[i].docId != R[j].docId)
  {
    var R := NumberedRecords(code, title, chunks);
    forall i, j | 0 <= i < j < |R| ensures R[i].docId != R[j].docId {
      if R[i].docId == R[j].docId {
        assert Decimal(i + 1) == R[i].docId[|code| + 1..] && Decimal(j + 1) == R[j].docId[|code| + 1..];
        DecimalInjective(i + 1, j + 1);
      }
    }
  }

  /**
   * The combined document always has words (it starts with "Occupation:"), so
   * every occupation is chunked normally (the `[combined_text]` fallback is never
   * taken) and yields at least one record.
   */
  lemma OccupationHasRecords(occ: Occupation, tasks: map<string, string>, context: map<string, string>)
    ensures OccupationChunks(occ, tasks, context) == ChunkTextSpec(Str(OccupationText(occ, tasks, context)), RecordMaxWords, RecordOverlap)
    ensures |OccupationRecords(occ, tasks, context)| >= 1
  {
    var text := OccupationText(occ, tasks, context);
    assert text[0] == 'O';
    assert StripLeft(text) == text;
    assert Words(text) != [];
    ChunkTextNonEmpty(text, RecordMaxWords, RecordOverlap);
  }

  /** A code missing from the task map reads as "No specific tasks listed.", one missing from the context map as "No specific work context listed.". */
  lemma MissingEntriesUseDefaults(occ: Occupation, tasks: map<string, string>, context: map<string, string>)
    ensures occ.code !in tasks ==>
      OccupationText(occ, tasks, context) == OccupationText(occ, tasks[occ.code := NoTasks], context)
    ensures occ.code !in context ==>
      OccupationText(occ, tasks, context) == OccupationText(occ, tasks, context[occ.code := NoContext])
  {
  }

  /** `docId` is the id of some record of one of the entries. */
  ghost predicate IdOfSome(docId: string, es: seq<Entry>) {
    exists k, i: nat :: 0 <= k < |es| && 1 <= i && docId == DocId(es[k].code, i)
  }

  ghost predicate IdsFrom(R: seq<Record>, es: seq<Entry>) {
    forall p :: 0 <= p < |R| ==> IdOfSome(R[p].docId, es)
  }

  ghost predicate IdsDistinct(R: seq<Record>) {
    forall p, q :: 0 <= p < q < |R| ==> R[p].docId != R[q].docId
  }

  /** Codes are pairwise distinct and free of `#`. */
  ghost predicate DistinctCodes(es: seq<Entry>) {
    (forall k :: 0 <= k < |es| ==> '#' !in es[k].code)
    && (forall k, l :: 0 <= k < l < |es| ==> es[k].code != es[l].code)
  }

  /** Appending the records of the last entry keeps every id naming an entry. */
  lemma IdsFromAppend(A: seq<Record>, es: seq<Entry>)
    requires |es| > 0 && IdsFrom(A, es[..|es| - 1])
    ensures IdsFrom(A + EntryRecords(es[|es| - 1]), es)
  {
    var n := |es| - 1;
    var pre, last := es[..n], es[n];
    var B := EntryRecords(last);
    NumberedRecordsShape(last.code, last.title, last.chunks);
    var kb := A + B;
    forall p | 0 <= p < |kb| ensures IdOfSome(kb[p].docId, es) {
      if p < |A| {
        assert IdOfSome(A[p].docId, pre);
        var k, i: nat :| 0 <= k < |pre| && 1 <= i && A[p].docId == DocId(pre[k].code, i);
        assert pre[k] == es[k];
      } else {
        assert kb[p] == B[p - |A|];
        assert kb[p].docId == DocId(es[n].code, p - |A| + 1);
      }
    }
  }

  /** Appending the numbered records of a new code keeps the ids distinct. */
  lemma IdsDistinctAppend(A: seq<Record>, es: seq<Entry>)
    requires |es| > 0 && DistinctCodes(es)
    requires IdsFrom(A, es[..|es| - 1]) && IdsDistinct(A)
    ensures IdsDistinct(A + EntryRecords(es[|es| - 1]))
  {
    var n := |es| - 1;
    var pre, last := es[..n], es[n];
    var B := EntryRecords(last);
    NumberedRecordsShape(last.code, last.title, last.chunks);
    var kb := A + B;
    forall p, q | 0 <= p < q < |kb| ensures kb[p].docId != kb[q].docId {
      if p < |A| && q < |A| {
        assert kb[p] == A[p] && kb[q] == A[q];
      } else if |A| <= p {
        assert kb[p] == B[p - |A|] && kb[q] == B[q - |A|];
      } else {
        assert IdOfSome(A[p].docId, pre);
        var k, i: nat :| 0 <= k < |pre| && 1 <= i && A[p].docId == DocId(pre[k].code, i);
        assert kb[p] == A[p] && kb[q] == B[q - |A|];
        assert pre[k] == es[k];
        if kb[p].docId == kb[q].docId {
          DocIdInjective(pre[k].code, i, last.code, q - |A| + 1);
          assert false;
        }
      }
    }
  }

  /** Every record id names one of the entries, and no two records share an id. */
  lemma {:induction false} CatalogueIdsDistinct(es: seq<Entry>)
    requires DistinctCodes(es)
    ensures IdsFrom(Catalogue(es), es) && IdsDistinct(Catalogue(es))
    decreases |es|
  {
    if |es| > 0 {
      var pre := es[..|es| - 1];
      assert DistinctCodes(pre) by {
        forall k | 0 <= k < |pre| ensures pre[k] == es[k] {}
      }
      CatalogueIdsDistinct(pre);
      IdsFromAppend(Catalogue(pre), es);
      IdsDistinctAppend(Catalogue(pre), es);
    }
  }

  /**
   * With pairwise distinct occupation codes that contain no `#`, the document
   * ids of the whole knowledge base are pairwise distinct.
   */
  lemma KnowledgeBaseIdsDistinct(occs: seq<Occupation>, tasks: map<string, string>, context: map<string, string>)
    requires forall k :: 0 <= k < |occs| ==> '#' !in occs[k].code
    requires forall k, l :: 0 <= k < l < |occs| ==> occs[k].code != occs[l].code
    ensures IdsDistinct(KnowledgeBase(occs, tasks, context))
  {
    var es := Entries(occs, tasks, context);
    assert forall k :: 0 <= k < |es| ==> es[k].code == occs[k].code;
    CatalogueIdsDistinct(es);
  }

  /** The record loop of `build_knowledge_base` over the occupation rows. */
  method BuildKnowledgeBase(occs: seq<Occupation>, tasks: map<string, string>, context: map<string, string>)
    returns (kb: seq<Record>)
    ensures kb == KnowledgeBase(occs, tasks, context)
  {
    ghost var es := Entries(occs, tasks, context);
    kb := [];
    for j := 0 to |occs|
      invariant kb == Catalogue(es[..j])
    {
      kb := AppendOccupation(kb, occs[j], tasks, context);
      CatalogueSnoc(es, j);
    }
    assert es[..|occs|] == es;
  }

  /** One turn of the record loop: the records of `occ` appended to `kb`, numbered from 1. */
  method AppendOccupation(kb0: seq<Record>, occ: Occupation, tasks: map<string, string>, context: map<string, string>)
    returns (kb: seq<Record>)
    ensures kb == kb0 + OccupationRecords(occ, tasks, context)
  {
    var title := CleanText(occ.title);
    var description := CleanText(occ.description);
    var t := if occ.code in tasks then tasks[occ.code] else NoTasks;
    var c := if occ.code in context then context[occ.code] else NoContext;
    var text := CombinedText(title, description, t, c);
    assert text == OccupationText(occ, tasks, context);
    var chunks := ChunkText(Str(text), RecordMaxWords, RecordOverlap);
    if chunks == [] {
      chunks := [text];
    }
    kb := AppendNumbered(kb0, occ.code, title, chunks);
  }

  /** `for idx, chunk in enumerate(chunks, start=1)`: one record per chunk. */
  method AppendNumbered(kb0: seq<Record>, code: string, title: string, chunks: seq<string>)
    returns (kb: seq<Record>)
    ensures kb == kb0 + NumberedRecords(code, title, chunks)
  {
    kb := kb0;
    for idx := 1 to |chunks| + 1
      invariant kb == kb0 + NumberedRecords(code, title, chunks[..idx - 1])
    {
      NumberedRecordsSnoc(code, title, chunks, idx - 1);
      kb := kb + [Record(DocId(code, idx), ChunkTitle(title, idx), chunks[idx - 1])];
    }
    assert chunks[..|chunks|] == chunks;
  }
}
