/** Chunking of paper text for the document store: whitespace normalisation, sentence-aware
    overlapping windows, and the per-paper chunk records with their metadata and ids. */
module DocumentProcessing {
  import opened Wrappers
  import opened Text
  import opened Records

  // ---------------------------------------------------------------------------------------
  // Whitespace normalisation: every run of whitespace becomes one ' ', then the ends are
  // stripped.

  /** Two whitespace characters stand side by side at k. */
  predicate DoubleSpaceAt(s: string, k: int)
  {
    0 <= k < |s| - 1 && IsSpace(s[k]) && IsSpace(s[k + 1])
  }

  /** Each maximal run of whitespace replaced by a single ' '. */
  function CollapseSpaces(s: string): (r: string)
    ensures |r| <= |s|
    ensures r == [] <==> s == []
    ensures r != [] ==> (IsSpace(r[0]) <==> IsSpace(s[0]))
    ensures forall k :: 0 <= k < |r| && IsSpace(r[k]) ==> r[k] == ' '
    ensures forall k :: !DoubleSpaceAt(r, k)
    decreases |s|
  {
    if s == [] then []
    else if |s| > 1 && IsSpace(s[0]) && IsSpace(s[1]) then CollapseSpaces(s[1..])
    else
      var head := if IsSpace(s[0]) then ' ' else s[0];
      var rest := CollapseSpaces(s[1..]);
      assert forall k :: DoubleSpaceAt([head] + rest, k) ==> k == 0 || DoubleSpaceAt(rest, k - 1);
      [head] + rest
  }

  /** A string in normal form: its only whitespace is single ' ' characters between words. */
  predicate IsNormalized(s: string)
  {
    (forall k :: 0 <= k < |s| && IsSpace(s[k]) ==> s[k] == ' ') &&
    (forall k | 0 <= k < |s| :: !DoubleSpaceAt(s, k)) &&
    (s == [] || (!IsSpace(s[0]) && !IsSpace(s[|s| - 1])))
  }

  /** `re.sub(r'\s+', ' ', text).strip()` */
  function Normalize(text: string): (r: string)
    ensures IsNormalized(r)
    ensures |r| <= |text|
  {
    var c := CollapseSpaces(text);
    var r := Strip(c);
    assert forall k :: DoubleSpaceAt(r, k) ==> DoubleSpaceAt(c, LeadingSpaces(c) + k);
    r
  }

  /** The non-whitespace characters of s, in order. */
  function NonSpaces(s: string): string
  {
    if s == [] then [] else (if IsSpace(s[0]) then [] else [s[0]]) + NonSpaces(s[1..])
  }

  lemma {:induction false} NonSpacesAppend(a: string, b: string)
    ensures NonSpaces(a + b) == NonSpaces(a) + NonSpaces(b)
  {
    if a != [] {
      assert (a + b)[0] == a[0] && (a + b)[1..] == a[1..] + b;
      NonSpacesAppend(a[1..], b);
      var head := if IsSpace(a[0]) then [] else [a[0]];
      assert NonSpaces(a + b) == head + NonSpaces(a[1..] + b);
      assert NonSpaces(a) == head + NonSpaces(a[1..]);
    } else {
      assert a + b == b;
    }
  }

  lemma {:induction false} NonSpacesOfBlank(s: string)
    requires forall k :: 0 <= k < |s| ==> IsSpace(s[k])
    ensures NonSpaces(s) == []
  {
    if s != [] {
      NonSpacesOfBlank(s[1..]);
    }
  }

  lemma {:induction false} CollapseKeepsText(s: string)
    ensures NonSpaces(CollapseSpaces(s)) == NonSpaces(s)
    decreases |s|
  {
    if s != [] {
      CollapseKeepsText(s[1..]);
      if !IsSpace(s[0]) {
        NonSpacesAppend([s[0]], CollapseSpaces(s[1..]));
      } else if !(|s| > 1 && IsSpace(s[1])) {
        NonSpacesAppend([' '], CollapseSpaces(s[1..]));
      }
    }
  }

  lemma StripKeepsText(s: string)
    ensures NonSpaces(Strip(s)) == NonSpaces(s)
  {
    StripSlice(s);
    var r, n := Strip(s), LeadingSpaces(s);
    assert s == s[..n] + r + s[n + |r|..];
    NonSpacesAppend(s[..n] + r, s[n + |r|..]);
    NonSpacesAppend(s[..n], r);
    NonSpacesOfBlank(s[..n]);
    NonSpacesOfBlank(s[n + |r|..]);
  }

  /** Normalisation changes whitespace only: the words of the text survive unchanged. */
  lemma NormalizeKeepsText(text: string)
    ensures NonSpaces(Normalize(text)) == NonSpaces(text)
  {
    CollapseKeepsText(text);
    StripKeepsText(CollapseSpaces(text));
  }

  /** Stripping a string that neither starts nor ends with whitespace leaves it alone. */
  lemma StripUnbounded(s: string)
    requires s == [] || (!IsSpace(s[0]) && !IsSpace(s[|s| - 1]))
    ensures Strip(s) == s
  {
  }

  /** Stripping a string that starts with a visible character keeps that character first. */
  lemma StripKeepsFirst(s: string)
    requires s != [] && !IsSpace(s[0])
    ensures Strip(s) != [] && Strip(s)[0] == s[0]
  {
  }

  lemma {:induction false} CollapseNormalized(s: string)
    requires forall k :: 0 <= k < |s| && IsSpace(s[k]) ==> s[k] == ' '
    requires forall k :: !DoubleSpaceAt(s, k)
    ensures CollapseSpaces(s) == s
    decreases |s|
  {
    if s != [] {
      assert forall k :: DoubleSpaceAt(s[1..], k) ==> DoubleSpaceAt(s, k + 1);
      CollapseNormalized(s[1..]);
      assert !DoubleSpaceAt(s, 0);
    }
  }

  /** Normalising is idempotent, and leaves an already normal text alone. */
  lemma NormalizeIdempotent(text: string)
    ensures IsNormalized(text) ==> Normalize(text) == text
    ensures Normalize(Normalize(text)) == Normalize(text)
  {
    forall s | IsNormalized(s)
      ensures Normalize(s) == s
    {
      CollapseNormalized(s);
      StripUnbounded(s);
    }
  }

  /** A word: a non-empty run of non-whitespace characters. */
  predicate IsWord(w: string)
  {
    w != [] && forall k :: 0 <= k < |w| ==> !IsSpace(w[k])
  }

  /** The length of the run of non-whitespace characters s starts with. */
  function WordLength(s: string): (n: nat)
    ensures n <= |s|
    ensures forall k :: 0 <= k < n ==> !IsSpace(s[k])
    ensures n == |s| || IsSpace(s[n])
  {
    if s != [] && !IsSpace(s[0]) then 1 + WordLength(s[1..]) else 0
  }

  /** The words of s, in order: its maximal runs of non-whitespace characters (what
      str.split() with no argument returns). */
  function Words(s: string): (ws: seq<string>)
    ensures forall i :: 0 <= i < |ws| ==> IsWord(ws[i])
    decreases |s|
  {
    if s == [] then []
    else if IsSpace(s[0]) then Words(s[1..])
    else
      var n := WordLength(s);
      [s[..n]] + Words(s[n..])
  }

  /** Words separated by single spaces neither start nor end with whitespace. */
  lemma {:induction false} JoinedWordsTrimmed(ws: seq<string>)
    requires forall i :: 0 <= i < |ws| ==> IsWord(ws[i])
    ensures var j := Join(" ", ws); (j == [] <==> ws == []) && (j == [] || (!IsSpace(j[0]) && !IsSpace(j[|j| - 1])))
  {
    if |ws| > 1 {
      JoinedWordsTrimmed(ws[1..]);
    }
  }

  /** Collapsing distributes over a concatenation that does not join two whitespace runs. */
  lemma {:induction false} CollapseAppend(a: string, b: string)
    requires a == [] || b == [] || !IsSpace(a[|a| - 1]) || !IsSpace(b[0])
    ensures CollapseSpaces(a + b) == CollapseSpaces(a) + CollapseSpaces(b)
    decreases |a|
  {
    if a == [] {
      assert a + b == b;
    } else {
      CollapseAppend(a[1..], b);
      CollapseAppendStep(a, b);
    }
  }

  /** The inductive step of CollapseAppend: the first character of `a` is handled the same
      way in `a + b` as in `a`. */
  lemma CollapseAppendStep(a: string, b: string)
    requires a != [] && (b == [] || !IsSpace(a[|a| - 1]) || !IsSpace(b[0]))
    requires CollapseSpaces(a[1..] + b) == CollapseSpaces(a[1..]) + CollapseSpaces(b)
    ensures CollapseSpaces(a + b) == CollapseSpaces(a) + CollapseSpaces(b)
  {
    TailOfAppend(a, b);
    var s := a + b;
    var x, y := CollapseSpaces(a[1..]), CollapseSpaces(b);
    if |a| > 1 {
      assert s[1] == a[1];
    } else {
      assert a[1..] + b == b;
    }
    if |s| > 1 && IsSpace(s[0]) && IsSpace(s[1]) {
      assert |a| > 1;
      assert CollapseSpaces(a) == x;
      assert CollapseSpaces(s) == x + y;
    } else {
      var head := if IsSpace(s[0]) then ' ' else s[0];
      assert CollapseSpaces(a) == [head] + x;
      assert CollapseSpaces(s) == [head] + (x + y);
      AppendAssoc([head], x, y);
    }
  }

  /** A non-empty run of whitespace collapses to exactly one space. */
  lemma {:induction false} CollapseBlank(w: string)
    requires w != [] && forall k :: 0 <= k < |w| ==> IsSpace(w[k])
    ensures CollapseSpaces(w) == " "
    decreases |w|
  {
    if |w| > 1 {
      CollapseBlank(w[1..]);
    }
  }

  /** A string without whitespace is left alone by collapsing. */
  lemma CollapseWord(w: string)
    requires forall k :: 0 <= k < |w| ==> !IsSpace(w[k])
    ensures CollapseSpaces(w) == w
  {
    CollapseNormalized(w);
  }

  /** Each whitespace run between two non-whitespace characters becomes exactly one space and
      the text on either side is collapsed on its own. */
  lemma CollapseRunToOneSpace(a: string, w: string, b: string)
    requires a == [] || !IsSpace(a[|a| - 1])
    requires w != [] && forall k :: 0 <= k < |w| ==> IsSpace(w[k])
    requires b == [] || !IsSpace(b[0])
    ensures CollapseSpaces(a + w + b) == CollapseSpaces(a) + " " + CollapseSpaces(b)
  {
    AppendAssoc(a, w, b);
    AppendAssoc(CollapseSpaces(a), " ", CollapseSpaces(b));
    var wb := w + b;
    assert wb[0] == w[0];
    CollapseAppend(w, b);
    CollapseBlank(w);
    CollapseAppend(a, wb);
  }

  lemma TailOfAppend(a: string, b: string)
    requires a != []
    ensures (a + b)[0] == a[0] && (a + b)[1..] == a[1..] + b
  {
  }

  /** Leading whitespace contributes no word. */
  lemma {:induction false} WordsSkipBlank(s: string, m: nat)
    requires m <= |s| && forall k :: 0 <= k < m ==> IsSpace(s[k])
    ensures Words(s) == Words(s[m..])
    decreases m
  {
    if m > 0 {
      WordsSkipBlank(s[1..], m - 1);
      assert s[1..][m - 1..] == s[m..];
    }
  }

  /** Splitting a string after its leading whitespace: collapsing turns that whitespace into
      one space (if there is any) and the words are those of the rest. */
  lemma SplitLeadingGap(s: string)
    ensures var m := LeadingSpaces(s);
      && CollapseSpaces(s) == (if m == 0 then "" else " ") + CollapseSpaces(s[m..])
      && Words(s) == Words(s[m..])
  {
    var m := LeadingSpaces(s);
    var gap, rest := s[..m], s[m..];
    assert s == gap + rest;
    CollapseAppend(gap, rest);
    if m > 0 {
      CollapseBlank(gap);
    } else {
      assert gap == [];
    }
    WordsSkipBlank(s, m);
  }

  /** Splitting a string that starts with a word after that word: collapsing keeps the word,
      and the word is the first of the string's words. */
  lemma SplitLeadingWord(s: string)
    requires s != [] && !IsSpace(s[0])
    ensures var n := WordLength(s);
      && CollapseSpaces(s) == s[..n] + CollapseSpaces(s[n..])
      && Words(s) == [s[..n]] + Words(s[n..])
  {
    var n := WordLength(s);
    var w, rest := s[..n], s[n..];
    assert s == w + rest;
    CollapseAppend(w, rest);
    CollapseWord(w);
  }

  /** Joining a word in front of a non-empty list of words adds the word and one space. */
  lemma JoinCons(w: string, ws: seq<string>)
    requires ws != []
    ensures Join(" ", [w] + ws) == w + " " + Join(" ", ws)
  {
    assert ([w] + ws)[1..] == ws;
  }

  /** Putting a word and a space in front keeps "the words joined, then at most one space". */
  lemma PrefixWord(w: string, ws: seq<string>, c: string)
    requires ws != []
    requires c == Join(" ", ws) || c == Join(" ", ws) + " "
    ensures w + (" " + c) == Join(" ", [w] + ws) || w + (" " + c) == Join(" ", [w] + ws) + " "
  {
    JoinCons(w, ws);
    var j := Join(" ", ws);
    if c == j {
      assert w + (" " + j) == w + " " + j;
    } else {
      assert w + (" " + (j + " ")) == w + " " + j + " ";
    }
  }

  /** A string with no leading whitespace collapses to its words separated by single spaces,
      followed by at most one space. */
  lemma {:induction false} CollapseFromWord(s: string)
    requires s == [] || !IsSpace(s[0])
    ensures CollapseSpaces(s) == Join(" ", Words(s)) || CollapseSpaces(s) == Join(" ", Words(s)) + " "
    decreases |s|
  {
    if s != [] {
      SplitLeadingWord(s);
      var n := WordLength(s);
      var w, rest := s[..n], s[n..];
      if rest == [] {
        assert Words(s) == [w];
      } else {
        SplitLeadingGap(rest);
        var r2 := rest[LeadingSpaces(rest)..];
        if r2 == [] {
          assert Words(s) == [w];
          assert CollapseSpaces(s) == w + " ";
        } else {
          CollapseFromWord(r2);
          assert Words(r2) != [];
          assert Words(s) == [w] + Words(r2);
          assert CollapseSpaces(s) == w + (" " + CollapseSpaces(r2));
          PrefixWord(w, Words(r2), CollapseSpaces(r2));
        }
      }
    }
  }

  /** Collapsing yields the words separated by single spaces, with at most one space before
      and after them. */
  lemma CollapseAsPaddedWords(text: string) returns (p: string, q: string)
    ensures p in {"", " "} && q in {"", " "}
    ensures CollapseSpaces(text) == p + Join(" ", Words(text)) + q
  {
    SplitLeadingGap(text);
    var m := LeadingSpaces(text);
    var t2 := text[m..];
    CollapseFromWord(t2);
    var j := Join(" ", Words(text));
    p := if m == 0 then "" else " ";
    q := if CollapseSpaces(t2) == j then "" else " ";
    assert CollapseSpaces(t2) == j + q;
    AppendAssoc(p, j, q);
  }

  lemma NormalizeUnfold(text: string)
    ensures Normalize(text) == Strip(CollapseSpaces(text))
  {
  }

  /** The reference meaning of normalisation: the words of the text, in order, separated by
      single spaces (" ".join(text.split())). */
  lemma NormalizeJoinsWords(text: string)
    ensures Normalize(text) == Join(" ", Words(text))
  {
    var p, q := CollapseAsPaddedWords(text);
    JoinedWordsTrimmed(Words(text));
    StripPadded(p, Join(" ", Words(text)), q);
    NormalizeUnfold(text);
  }

  // ---------------------------------------------------------------------------------------
  // Windows.

  predicate IsSentenceEnd(c: char)
  {
    c == '.' || c == '!' || c == '?' || c == '\n'
  }

  /** Scanning t[target], t[target - 1], ..., t[target - limit + 1] from index i on: just
      past the first sentence end met, or `target` when there is none. */
  function BoundarySearch(t: string, target: nat, i: nat, limit: nat): (end: nat)
    requires target < |t| && limit <= target + 1 && i <= limit
    ensures end == target || target - limit + 2 <= end <= target - i + 1
    decreases limit - i
  {
    if i == limit then target
    else if IsSentenceEnd(t[target - i]) then target - i + 1
    else BoundarySearch(t, target, i + 1, limit)
  }

  /** The search stops just past the sentence end nearest to `target` in its range, and
      returns `target` only when it met none (or when that sentence end is t[target - 1]). */
  lemma {:induction false} BoundarySearchFindsLast(t: string, target: nat, i: nat, limit: nat)
    requires target < |t| && limit <= target + 1 && i <= limit
    ensures var end := BoundarySearch(t, target, i, limit);
      (end == target && forall q :: target - limit < q <= target - i ==> !IsSentenceEnd(t[q]))
      || (target - limit + 1 < end <= target - i + 1 && IsSentenceEnd(t[end - 1]) &&
          forall q :: end <= q <= target - i ==> !IsSentenceEnd(t[q]))
    decreases limit - i
  {
    if i < limit && !IsSentenceEnd(t[target - i]) {
      BoundarySearchFindsLast(t, target, i + 1, limit);
    }
  }

  /** Where the window starting at `start` ends: `size` characters on, pulled back to just past
      the last sentence end among the final 100 positions when the text goes on. */
  function WindowEnd(t: string, start: nat, size: nat): (end: nat)
    requires start < |t| && 0 < size
    ensures start < end <= start + size + 1
    ensures start + size >= |t| ==> end == start + size
    ensures start + size < |t| && end != start + size ==> end >= start + size - Min(100, size) + 2
  {
    if start + size < |t| then BoundarySearch(t, start + size, 0, Min(100, size)) else start + size
  }

  /** The next window's start: `overlap` characters before this window's end, except that
      it never falls back to or before this window's start (then it is this window's end). */
  function NextStart(start: nat, end: nat, overlap: nat): (next: nat)
    requires start < end
    ensures start < next <= end
    ensures next == end - overlap || (end - overlap <= start && next == end)
  {
    if end - overlap > start then end - overlap else end
  }

  /** The settings under which `end - overlap` always moves forward. */
  predicate StepsForward(size: nat, overlap: nat)
  {
    0 < size && overlap < size && overlap < size - Min(100, size) + 2
  }

  /** The chunks of the windows from `start` on; blank windows give no chunk. */
  function ChunksFrom(t: string, start: nat, size: nat, overlap: nat): seq<string>
    requires 0 < size
    decreases |t| - start
  {
    if start >= |t| then []
    else
      var end := WindowEnd(t, start, size);
      var window := t[start..Min(end, |t|)];
      var piece := Strip(window);
      (if piece == [] then [] else [piece]) + ChunksFrom(t, NextStart(start, end, overlap), size, overlap)
  }

  lemma SliceOfSlice(s: string, a: nat, b: nat, c: nat, d: nat)
    requires a <= b <= |s| && c <= d <= b - a
    ensures s[a..b][c..d] == s[a + c..a + d]
  {
    assert forall j :: 0 <= j < d - c ==> s[a..b][c..d][j] == s[a + c + j];
  }

  /** One step of the window loop: the chunk of the window at `start`, if any, then the rest. */
  lemma ChunksFromStep(t: string, start: nat, size: nat, overlap: nat)
    requires 0 < size && start < |t|
    ensures var end := WindowEnd(t, start, size);
      var piece := Strip(t[start..Min(end, |t|)]);
      var rest := ChunksFrom(t, NextStart(start, end, overlap), size, overlap);
      ChunksFrom(t, start, size, overlap) == if piece == [] then rest else [piece] + rest
  {
  }

  lemma AppendAssoc<T>(a: seq<T>, b: seq<T>, c: seq<T>)
    ensures (a + b) + c == a + (b + c)
  {
  }

  /** A chunk as the window loop emits it: a non-empty piece of t, without surrounding
      whitespace, at most one character longer than the chunk size. */
  predicate IsChunkOf(t: string, c: string, size: nat)
  {
    c != [] && !IsSpace(c[0]) && !IsSpace(c[|c| - 1]) && |c| <= size + 1 && Contains(t, c)
  }

  lemma WindowPieceIsChunk(t: string, start: nat, size: nat)
    requires 0 < size && start < |t|
    ensures var piece := Strip(t[start..Min(WindowEnd(t, start, size), |t|)]);
      piece != [] ==> IsChunkOf(t, piece, size)
  {
    var end := Min(WindowEnd(t, start, size), |t|);
    StrippedSliceOccurs(t, start, end);
    var o := start + LeadingSpaces(t[start..end]);
    assert Contains(t, Strip(t[start..end])) by {
      assert 0 <= o <= |t| && OccursAt(t, Strip(t[start..end]), o);
    }
  }

  /** A stripped slice of t stands in t right after the slice's leading whitespace. */
  lemma StrippedSliceOccurs(t: string, start: nat, end: nat)
    requires start <= end <= |t|
    ensures OccursAt(t, Strip(t[start..end]), start + LeadingSpaces(t[start..end]))
  {
    var window := t[start..end];
    StripOccurs(window);
    OccursInSlice(t, start, end, Strip(window), LeadingSpaces(window));
  }

  /** The stripped string stands in the original right after its leading whitespace. */
  lemma StripOccurs(w: string)
    ensures OccursAt(w, Strip(w), LeadingSpaces(w))
  {
    StripSlice(w);
  }

  /** A piece of a slice of t is a piece of t, shifted by the slice's start. */
  lemma OccursInSlice(t: string, start: nat, end: nat, p: string, i: nat)
    requires start <= end <= |t| && OccursAt(t[start..end], p, i)
    ensures OccursAt(t, p, start + i)
  {
    SliceOfSlice(t, start, end, i, i + |p|);
  }

  /** Every chunk of the windows from `start` on is a chunk of t. */
  lemma {:induction false} ChunksFromShape(t: string, start: nat, size: nat, overlap: nat)
    requires 0 < size
    ensures forall c :: c in ChunksFrom(t, start, size, overlap) ==> IsChunkOf(t, c, size)
    decreases |t| - start
  {
    if start < |t| {
      var end := WindowEnd(t, start, size);
      var next := NextStart(start, end, overlap);
      ChunksFromShape(t, next, size, overlap);
      WindowPieceIsChunk(t, start, size);
    }
  }

  /** `chunk_text`: the normalised text whole when it fits one chunk, else its windows. */
  function Chunks(text: string, size: nat, overlap: nat): seq<string>
    requires 0 < size
  {
    var t := Normalize(text);
    if |t| <= size then [t] else ChunksFrom(t, 0, size, overlap)
  }

  /** Every chunk is a piece of the normalised text at most one past the chunk size; a text
      longer than one chunk yields only non-empty chunks without surrounding whitespace. */
  lemma ChunksShape(text: string, size: nat, overlap: nat)
    requires 0 < size
    ensures forall c :: c in Chunks(text, size, overlap) ==> Contains(Normalize(text), c) && |c| <= size + 1
    ensures |Normalize(text)| > size ==> forall c :: c in Chunks(text, size, overlap) ==> IsChunkOf(Normalize(text), c, size)
  {
    var t := Normalize(text);
    if |t| <= size {
      assert OccursAt(t, t, 0);
    } else {
      ChunksFromShape(t, 0, size, overlap);
    }
  }

  /** A text with any visible character yields at least one chunk, and the first chunk starts
      where the normalised text starts. */
  lemma ChunksStartAtText(text: string, size: nat, overlap: nat)
    requires 0 < size
    requires Normalize(text) != []
    ensures |Chunks(text, size, overlap)| >= 1
    ensures Chunks(text, size, overlap)[0] != [] && Chunks(text, size, overlap)[0][0] == Normalize(text)[0]
  {
    var t := Normalize(text);
    if |t| > size {
      var end := WindowEnd(t, 0, size);
      var window := t[0..Min(end, |t|)];
      StripKeepsFirst(window);
    }
  }

  // ---------------------------------------------------------------------------------------
  // The window step as written: `start = end - overlap` with Python's negative indexing.

  /** `text[j]` for -|t| <= j < |t|. */
  function PyIndex(t: string, j: int): char
    requires -|t| <= j < |t|
  {
    if j >= 0 then t[j] else t[|t| + j]
  }

  /** A slice bound as Python resolves it against a sequence of length n. */
  function PyBound(n: nat, j: int): (b: nat)
    ensures b <= n
  {
    if j < 0 then (if j + n < 0 then 0 else j + n) else if j > n then n else j
  }

  /** `text[a:b]` */
  function PySlice(t: string, a: int, b: int): string
  {
    var lo := PyBound(|t|, a);
    var hi := PyBound(|t|, b);
    if lo < hi then t[lo..hi] else []
  }

  function BoundarySearchAsWritten(t: string, target: int, i: nat, limit: nat): int
    requires target < |t| && -|t| <= target - limit + 1 && i <= limit
    decreases limit - i
  {
    if i == limit then target
    else if IsSentenceEnd(PyIndex(t, target - i)) then target - i + 1
    else BoundarySearchAsWritten(t, target, i + 1, limit)
  }

  /** The window end as written, for a start that may be negative. */
  function WindowEndAsWritten(t: string, start: int, size: nat): int
    requires -|t| <= start < |t|
  {
    if start + size < |t| then BoundarySearchAsWritten(t, start + size, 0, Min(100, size)) else start + size
  }

  /** One pass of the `while start < len(text)` loop as written: the next start and the
      stripped window (appended only when non-empty). */
  function StepAsWritten(t: string, start: int, size: nat, overlap: nat): (int, string)
    requires -|t| <= start < |t|
  {
    var end := WindowEndAsWritten(t, start, size);
    (end - overlap, Strip(PySlice(t, start, end)))
  }

  lemma {:induction false} SearchAsWrittenFindsFirst(t: string, target: int, i: nat, limit: nat, k: nat)
    requires target < |t| && -|t| <= target - limit + 1 && i <= k < limit
    requires forall q :: target - k < q <= target - i ==> !IsSentenceEnd(PyIndex(t, q))
    requires IsSentenceEnd(PyIndex(t, target - k))
    ensures BoundarySearchAsWritten(t, target, i, limit) == target - k + 1
    decreases k - i
  {
    if i < k {
      SearchAsWrittenFindsFirst(t, target, i + 1, limit, k);
    }
  }

  lemma {:induction false} SearchAsWrittenAgrees(t: string, target: nat, i: nat, limit: nat)
    requires target < |t| && limit <= target + 1 && i <= limit
    ensures BoundarySearchAsWritten(t, target, i, limit) == BoundarySearch(t, target, i, limit)
    decreases limit - i
  {
    if i < limit {
      SearchAsWrittenAgrees(t, target, i + 1, limit);
    }
  }

  /** From a start inside the text, the step as written reads the same window and keeps the
      same chunk as the model's step for every setting; its next start `end - overlap` is the
      model's exactly when it moves past the current start. */
  lemma StepAsWrittenAgrees(t: string, start: nat, size: nat, overlap: nat)
    requires start < |t| && 0 < size
    ensures var end := WindowEnd(t, start, size);
      StepAsWritten(t, start, size, overlap) == (end - overlap, Strip(t[start..Min(end, |t|)]))
    ensures var end := WindowEnd(t, start, size);
      StepAsWritten(t, start, size, overlap).0 == NextStart(start, end, overlap) as int <==> end - overlap > start
  {
    var end := WindowEnd(t, start, size);
    assert WindowEndAsWritten(t, start, size) == end by {
      if start + size < |t| {
        SearchAsWrittenAgrees(t, start + size, 0, Min(100, size));
      }
    }
    assert PySlice(t, start, end) == t[start..Min(end, |t|)] by {
      PySliceInRange(t, start, end);
    }
  }

  /** Under settings where `end - overlap` always moves forward, the step as written is
      exactly one step of ChunksFrom, so for those settings the model is the source loop. */
  lemma StepsForwardAgrees(t: string, start: nat, size: nat, overlap: nat)
    requires start < |t| && StepsForward(size, overlap)
    ensures StepAsWritten(t, start, size, overlap)
         == (NextStart(start, WindowEnd(t, start, size), overlap) as int,
             Strip(t[start..Min(WindowEnd(t, start, size), |t|)]))
  {
    StepAsWrittenAgrees(t, start, size, overlap);
  }

  lemma PySliceInRange(t: string, a: nat, b: nat)
    requires a < b
    ensures PySlice(t, a, b) == t[Min(a, |t|)..Min(b, |t|)]
  {
  }

  /** A 200-character text whose only sentence end is its second character. */
  function StallText(): string
  {
    "a." + seq(198, _ => 'a')
  }

  /** With chunk size 100 and overlap 20 (the documented example settings, overlap < size),
      the loop as written takes the chunk "a.", moves start to -18, and from -18 comes back
      to -18 without adding a chunk: `while start < len(text)` never ends. */
  lemma ChunkerStallsAsWritten()
    ensures Normalize(StallText()) == StallText() && |StallText()| > 100
    ensures StepAsWritten(StallText(), 0, 100, 20) == (-18, "a.")
    ensures StepAsWritten(StallText(), -18, 100, 20) == (-18, "")
  {
    StallTextNormalized();
    StallFirstStep();
    StallSecondStep();
  }

  lemma StallTextNormalized()
    ensures Normalize(StallText()) == StallText() && |StallText()| == 200
  {
    var t := StallText();
    assert forall q :: 2 <= q < |t| ==> t[q] == 'a';
    assert IsNormalized(t);
    NormalizeIdempotent(t);
  }

  lemma StallFirstStep()
    ensures StepAsWritten(StallText(), 0, 100, 20) == (-18, "a.")
  {
    var t := StallText();
    assert forall q :: 2 <= q < |t| ==> t[q] == 'a';
    assert PyIndex(t, 1) == '.';
    SearchAsWrittenFindsFirst(t, 100, 0, 100, 99);
    assert PySlice(t, 0, 2) == "a.";
    StripUnbounded("a.");
  }

  lemma StallSecondStep()
    ensures StepAsWritten(StallText(), -18, 100, 20) == (-18, "")
  {
    var t := StallText();
    assert forall q :: 2 <= q < |t| ==> t[q] == 'a';
    assert PyIndex(t, 1) == '.';
    SearchAsWrittenFindsFirst(t, 82, 0, 100, 81);
    assert PySlice(t, -18, 2) == [];
  }

  // ---------------------------------------------------------------------------------------
  // Paper chunk records.

  datatype ChunkRecord = ChunkRecord(text: string, metadata: ChunkMetadata, id: string)

  /** The text chunked for a paper: its title and abstract. */
  function FullText(paper: Paper): string
  {
    "Title: " + paper.title + "\n\nAbstract: " + paper.summary
  }

  /** `f"{entry_id}_chunk_{i}"` */
  function ChunkId(entryId: string, i: nat): string
  {
    entryId + "_chunk_" + NatToString(i)
  }

  function ChunkMetadataFor(paper: Paper, i: nat): ChunkMetadata
  {
    ChunkMetadata(paper.title, Join(", ", paper.authors), paper.published, paper.entryId, i,
                  TruthyPdfUrl(paper.pdfUrl))
  }

  /** The records for the paper's chunks, numbered from 0. */
  function RecordsFor(paper: Paper, chunks: seq<string>): seq<ChunkRecord>
  {
    seq(|chunks|, i requires 0 <= i < |chunks| =>
      ChunkRecord(chunks[i], ChunkMetadataFor(paper, i), ChunkId(paper.entryId, i)))
  }

  /** `process_paper`: one record per chunk of the paper's text. */
  function PaperChunks(paper: Paper, size: nat, overlap: nat): seq<ChunkRecord>
    requires 0 < size
  {
    RecordsFor(paper, Chunks(FullText(paper), size, overlap))
  }

  /** Chunk ids of one entry differ exactly when their indices differ. */
  lemma ChunkIdInjective(entryId: string, i: nat, j: nat)
    requires ChunkId(entryId, i) == ChunkId(entryId, j)
    ensures i == j
  {
    var p := entryId + "_chunk_";
    assert NatToString(i) == ChunkId(entryId, i)[|p|..] == ChunkId(entryId, j)[|p|..] == NatToString(j);
    NatToStringInjective(i, j);
  }

  /** Every paper yields at least one chunk, the first one beginning with the title label;
      ids are distinct; every chunk carries the paper's metadata, its own index, and the same
      pdf_url, which is present only when the paper's is non-empty. */
  lemma PaperChunksProperties(paper: Paper, size: nat, overlap: nat)
    requires 0 < size
    ensures |PaperChunks(paper, size, overlap)| >= 1
    ensures PaperChunks(paper, size, overlap)[0].text[0] == 'T'
    ensures forall i, j :: 0 <= i < j < |PaperChunks(paper, size, overlap)| ==>
      PaperChunks(paper, size, overlap)[i].id != PaperChunks(paper, size, overlap)[j].id
    ensures forall i :: 0 <= i < |PaperChunks(paper, size, overlap)| ==>
      var m := PaperChunks(paper, size, overlap)[i].metadata;
      m.chunkIndex == i && m.title == paper.title && m.source == paper.entryId &&
      m.authors == Join(", ", paper.authors) && m.published == paper.published &&
      m.pdfUrl == PaperChunks(paper, size, overlap)[0].metadata.pdfUrl &&
      (m.pdfUrl.Some? <==> paper.pdfUrl.Some? && paper.pdfUrl.value != "")
  {
    var text := FullText(paper);
    var c := CollapseSpaces(text);
    assert c[0] == 'T';
    StripKeepsFirst(c);
    ChunksStartAtText(text, size, overlap);
    var records := PaperChunks(paper, size, overlap);
    forall i, j | 0 <= i < j < |records|
      ensures records[i].id != records[j].id
    {
      if records[i].id == records[j].id {
        ChunkIdInjective(paper.entryId, i, j);
      }
    }
  }

  /** The loop of `process_paper` that attaches metadata and an id to each chunk. */
  method BuildRecords(paper: Paper, chunks: seq<string>) returns (records: seq<ChunkRecord>)
    ensures records == RecordsFor(paper, chunks)
  {
    records := [];
    for i := 0 to |chunks|
      invariant |records| == i
      invariant forall k :: 0 <= k < i ==>
        records[k] == ChunkRecord(chunks[k], ChunkMetadataFor(paper, k), ChunkId(paper.entryId, k))
    {
      var metadata := ChunkMetadata(paper.title, Join(", ", paper.authors), paper.published,
                                    paper.entryId, i, TruthyPdfUrl(paper.pdfUrl));
      records := records + [ChunkRecord(chunks[i], metadata, paper.entryId + "_chunk_" + NatToString(i))];
    }
  }

  // ---------------------------------------------------------------------------------------
  // The processor object.

  class DocumentProcessor {
    const chunkSize: nat
    const chunkOverlap: nat

    /** The setting the chunker needs: a positive size (with size 0 no window ever
        advances). The overlap is documented to stay below the size but is not checked. */
    predicate Valid()
    {
      0 < chunkSize
    }

    constructor (chunkSize: nat, chunkOverlap: nat)
      requires 0 < chunkSize
      ensures this.chunkSize == chunkSize && this.chunkOverlap == chunkOverlap && Valid()
    {
      this.chunkSize := chunkSize;
      this.chunkOverlap := chunkOverlap;
    }

    /** The default settings, 1000 characters with 200 of overlap. */
    constructor Default()
      ensures chunkSize == 1000 && chunkOverlap == 200 && Valid()
      ensures StepsForward(chunkSize, chunkOverlap)
    {
      chunkSize := 1000;
      chunkOverlap := 200;
    }

    /** `chunk_text` */
    method ChunkText(text: string) returns (chunks: seq<string>)
      requires Valid()
      ensures chunks == Chunks(text, chunkSize, chunkOverlap)
    {
      var t := Normalize(text);
      if |t| <= chunkSize {
        return [t];
      }
      chunks := ChunkWindows(t);
    }

    /** The `while start < len(text)` loop of `chunk_text`. */
    method ChunkWindows(t: string) returns (chunks: seq<string>)
      requires Valid()
      ensures chunks == ChunksFrom(t, 0, chunkSize, chunkOverlap)
    {
      chunks := [];
      var start: nat := 0;
      while start < |t|
        invariant chunks + ChunksFrom(t, start, chunkSize, chunkOverlap) == ChunksFrom(t, 0, chunkSize, chunkOverlap)
        decreases |t| - start
      {
        var end := FindWindowEnd(t, start);
        var piece := Strip(t[start..Min(end, |t|)]);
        var next := NextStart(start, end, chunkOverlap);
        ChunksFromStep(t, start, chunkSize, chunkOverlap);
        if piece != [] {
          AppendAssoc(chunks, [piece], ChunksFrom(t, next, chunkSize, chunkOverlap));
          chunks := chunks + [piece];
        }
        start := next;
      }
    }

    /** One window's end: `chunk_size` on, then the backward search for a sentence end. */
    method FindWindowEnd(t: string, start: nat) returns (end: nat)
      requires Valid() && start < |t|
      ensures end == WindowEnd(t, start, chunkSize)
    {
      end := start + chunkSize;
      if end < |t| {
        var target := end;
        var limit := Min(100, end - start);
        for i := 0 to limit
          invariant end == target
          invariant BoundarySearch(t, target, i, limit) == BoundarySearch(t, target, 0, limit)
        {
          if IsSentenceEnd(t[end - i]) {
            end := end - i + 1;
            break;
          }
        }
      }
    }

    /** `process_paper` */
    method ProcessPaper(paper: Paper) returns (records: seq<ChunkRecord>)
      requires Valid()
      ensures records == PaperChunks(paper, chunkSize, chunkOverlap)
    {
      var fullText := "Title: " + paper.title + "\n\nAbstract: " + paper.summary;
      var chunks := ChunkText(fullText);
      records := BuildRecords(paper, chunks);
    }
  }
}
