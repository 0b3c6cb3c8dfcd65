/** Overlapping windows over a text or its tokens, stripped into the chunks memory recall indexes. */
module Chunker {
  import opened Options
  import opened Sequences
  import opened Text

  const CHUNK_TOKENS: nat := 256
  const CHUNK_OVERLAP_TOKENS: nat := 32
  const CHARS_PER_TOKEN_FALLBACK: nat := 4
  const WINDOW_CHARS: nat := CHUNK_TOKENS * CHARS_PER_TOKEN_FALLBACK
  const OVERLAP_CHARS: nat := CHUNK_OVERLAP_TOKENS * CHARS_PER_TOKEN_FALLBACK

  function Min(a: nat, b: nat): (r: nat) {
    if a <= b then a else b
  }

  function Max(a: int, b: int): (r: int) {
    if a >= b then a else b
  }

  /** The windows from `start` on: each next one begins `overlap` before the end of the last, and past its start. */
  function Windows<T>(s: seq<T>, start: nat, window: nat, overlap: nat): (r: seq<seq<T>>)
    decreases |s| - start
  {
    if start >= |s| then []
    else
      var end := Min(start + window, |s|);
      [s[start..end]] + if end == |s| then [] else Windows(s, Max(end - overlap, start + 1), window, overlap)
  }

  /** Every window as stripped text. */
  function Texts<T>(windows: seq<seq<T>>, decode: seq<T> -> string): (r: seq<string>) {
    if windows == [] then [] else [Strip(decode(windows[0]))] + Texts(windows[1..], decode)
  }

  function NonEmpty(texts: seq<string>): (r: seq<string>) {
    if texts == [] then []
    else if texts[0] == "" then NonEmpty(texts[1..])
    else [texts[0]] + NonEmpty(texts[1..])
  }

  function Same(s: string): (r: string) {
    s
  }

  function CharChunks(text: string): (r: seq<string>) {
    NonEmpty(Texts(Windows(text, 0, WINDOW_CHARS, OVERLAP_CHARS), Same))
  }

  function TokenChunks<T>(tokens: seq<T>, decode: seq<T> -> string): (r: seq<string>) {
    NonEmpty(Texts(Windows(tokens, 0, CHUNK_TOKENS, CHUNK_OVERLAP_TOKENS), decode))
  }

  // ---------------------------------------------------------------- the loops

  /** One turn of the loop. */
  lemma TextsStep<T>(s: seq<T>, start: nat, window: nat, overlap: nat, decode: seq<T> -> string)
    requires start < |s|
    ensures var end := Min(start + window, |s|);
            Texts(Windows(s, start, window, overlap), decode) ==
            if end == |s| then [Strip(decode(s[start..end]))]
            else [Strip(decode(s[start..end]))] +
                 Texts(Windows(s, Max(end - overlap, start + 1), window, overlap), decode)
  {
    var ws := Windows(s, start, window, overlap);
    var end := Min(start + window, |s|);
    assert ws[0] == s[start..end];
    assert ws[1..] == if end == |s| then [] else Windows(s, Max(end - overlap, start + 1), window, overlap);
  }

  method KeepNonEmpty(texts: seq<string>) returns (out: seq<string>)
    ensures out == NonEmpty(texts)
  {
    out := [];
    for i := 0 to |texts|
      invariant NonEmpty(texts) == out + NonEmpty(texts[i..])
    {
      assert texts[i..][1..] == texts[i + 1..];
      if texts[i] != "" { out := out + [texts[i]]; }
    }
  }

  method ChunkWithChars(text: string) returns (chunks: seq<string>)
    ensures chunks == CharChunks(text)
  {
    var stripped := Strip(text);
    if stripped == "" {
      BlankTextHasNoChunks(text);
      return [];
    }
    var window, overlap := CHUNK_TOKENS * CHARS_PER_TOKEN_FALLBACK, CHUNK_OVERLAP_TOKENS * CHARS_PER_TOKEN_FALLBACK;
    var out: seq<string> := [];
    var start := 0;
    while start < |text|
      invariant 0 <= start <= |text|
      invariant Texts(Windows(text, 0, window, overlap), Same) ==
                out + Texts(Windows(text, start, window, overlap), Same)
    {
      var end := Min(start + window, |text|);
      TextsStep(text, start, window, overlap, Same);
      out := out + [Strip(text[start..end])];
      if end == |text| { break; }
      start := Max(end - overlap, start + 1);
    }
    assert out == Texts(Windows(text, 0, window, overlap), Same);
    chunks := KeepNonEmpty(out);
  }

  method ChunkWithTokens<T>(tokens: seq<T>, decode: seq<T> -> string) returns (chunks: seq<string>)
    ensures chunks == TokenChunks(tokens, decode)
  {
    if tokens == [] { return []; }
    var out: seq<string> := [];
    var start := 0;
    while start < |tokens|
      invariant 0 <= start <= |tokens|
      invariant Texts(Windows(tokens, 0, CHUNK_TOKENS, CHUNK_OVERLAP_TOKENS), decode) ==
                out + Texts(Windows(tokens, start, CHUNK_TOKENS, CHUNK_OVERLAP_TOKENS), decode)
    {
      var end := Min(start + CHUNK_TOKENS, |tokens|);
      TextsStep(tokens, start, CHUNK_TOKENS, CHUNK_OVERLAP_TOKENS, decode);
      out := out + [Strip(decode(tokens[start..end]))];
      if end == |tokens| { break; }
      start := Max(end - CHUNK_OVERLAP_TOKENS, start + 1);
    }
    assert out == Texts(Windows(tokens, 0, CHUNK_TOKENS, CHUNK_OVERLAP_TOKENS), decode);
    chunks := KeepNonEmpty(out);
  }

  /** `encoded` is None when the tokeniser is missing or fails. */
  method ChunkText<T>(text: string, encoded: Option<seq<T>>, decode: seq<T> -> string) returns (chunks: seq<string>)
    ensures chunks == if Strip(text) == "" then [] else if encoded == None then CharChunks(text)
                      else TokenChunks(encoded.value, decode)
  {
    var stripped := Strip(text);
    if stripped == "" { return []; }
    if encoded == None {
      chunks := ChunkWithChars(text);
    } else {
      chunks := ChunkWithTokens(encoded.value, decode);
    }
  }

  // ---------------------------------------------------------------- the raw windows

  /** Where window `i` starts. */
  function Origin(start: nat, step: nat, i: nat): (r: nat)
    decreases i
  {
    if i == 0 then start else Origin(start + step, step, i - 1)
  }

  lemma {:induction false} OriginIs(start: nat, step: nat, i: nat)
    ensures Origin(start, step, i) == start + i * step
    decreases i
  {
    if i > 0 {
      OriginIs(start + step, step, i - 1);
      assert step + (i - 1) * step == i * step;
    }
  }

  lemma {:induction false} OriginNext(start: nat, step: nat, i: nat)
    ensures Origin(start, step, i + 1) == Origin(start, step, i) + step
    decreases i
  {
    if i > 0 { OriginNext(start + step, step, i - 1); }
  }

  lemma {:induction false} OriginGrows(start: nat, step: nat, i: nat)
    ensures Origin(start, step, i) >= if i > 0 then start + step else start
    decreases i
  {
    if i > 0 { OriginGrows(start + step, step, i - 1); }
  }

  /** A window that does not reach the end is followed by the windows from the next start on. */
  lemma WindowsTail<T>(s: seq<T>, start: nat, window: nat, overlap: nat)
    requires start + window < |s| && overlap < window
    ensures Windows(s, start, window, overlap) != []
    ensures Windows(s, start, window, overlap)[0] == s[start..start + window]
    ensures Windows(s, start, window, overlap)[1..] == Windows(s, start + (window - overlap), window, overlap)
    ensures Windows(s, start + (window - overlap), window, overlap) != []
  {
    assert ([s[start..start + window]] + Windows(s, start + (window - overlap), window, overlap))[1..] ==
           Windows(s, start + (window - overlap), window, overlap);
  }

  lemma {:induction false} WindowStarts<T>(s: seq<T>, ws: seq<seq<T>>, start: nat, window: nat, overlap: nat, i: nat)
    requires start < |s| && overlap < window && ws == Windows(s, start, window, overlap) && i < |ws|
    ensures Origin(start, window - overlap, i) < |s|
    ensures i + 1 == |ws| <==> |s| <= Origin(start, window - overlap, i) + window
    decreases i
  {
    if i > 0 {
      WindowsTail(s, start, window, overlap);
      WindowStarts(s, ws[1..], start + (window - overlap), window, overlap, i - 1);
    }
  }

  lemma {:induction false} WindowHolds<T>(s: seq<T>, ws: seq<seq<T>>, start: nat, window: nat, overlap: nat, i: nat,
                                          a: nat)
    requires start < |s| && overlap < window && ws == Windows(s, start, window, overlap) && i < |ws|
    requires a == Origin(start, window - overlap, i) && a < |s|
    ensures ws[i] == s[a..Min(a + window, |s|)]
    decreases i
  {
    if i > 0 {
      WindowsTail(s, start, window, overlap);
      WindowHolds(s, ws[1..], start + (window - overlap), window, overlap, i - 1, a);
    }
  }

  lemma WindowAt<T>(s: seq<T>, start: nat, window: nat, overlap: nat, i: nat)
    requires start < |s| && overlap < window && i < |Windows(s, start, window, overlap)|
    ensures var (ws, a) := (Windows(s, start, window, overlap), Origin(start, window - overlap, i));
            a < |s| && ws[i] == s[a..Min(a + window, |s|)] && (i + 1 == |ws| <==> |s| <= a + window)
  {
    WindowStarts(s, Windows(s, start, window, overlap), start, window, overlap, i);
    WindowHolds(s, Windows(s, start, window, overlap), start, window, overlap, i, Origin(start, window - overlap, i));
  }

  /** Window `i` starts at i steps, and only the last one reaches the end. */
  lemma WindowIs<T>(s: seq<T>, start: nat, window: nat, overlap: nat, i: nat)
    requires start < |s| && overlap < window && i < |Windows(s, start, window, overlap)|
    ensures var (ws, a) := (Windows(s, start, window, overlap), Origin(start, window - overlap, i));
            && a == start + i * (window - overlap) && a < |s|
            && ws[i] == s[a..Min(a + window, |s|)] && (i + 1 == |ws| <==> |s| <= a + window)
  {
    WindowAt(s, start, window, overlap, i);
    OriginIs(start, window - overlap, i);
  }

  lemma SharedPart<T>(s: seq<T>, w: seq<T>, v: seq<T>, a: nat, b: nat, end: nat, last: nat)
    requires a <= b <= end <= last <= |s| && w == s[a..end] && v == s[b..last]
    ensures |w| == end - a && |v| == last - b && w[b - a..] == v[..end - b]
  {
    assert w[b - a..] == s[b..end];
    assert v[..end - b] == s[b..end];
  }

  /** Only the last window is shorter than `window`; neighbours share exactly `overlap` elements. */
  lemma NeighboursOverlap<T>(s: seq<T>, start: nat, window: nat, overlap: nat, i: nat)
    requires overlap < window && start < |s| && i + 1 < |Windows(s, start, window, overlap)|
    ensures var (w, v) := (Windows(s, start, window, overlap)[i], Windows(s, start, window, overlap)[i + 1]);
            && |w| == window && overlap < |v| <= window
            && w[window - overlap..] == v[..overlap]
  {
    var (a, b) := (Origin(start, window - overlap, i), Origin(start, window - overlap, i + 1));
    WindowAt(s, start, window, overlap, i);
    WindowAt(s, start, window, overlap, i + 1);
    OriginNext(start, window - overlap, i);
    var ws := Windows(s, start, window, overlap);
    SharedPart(s, ws[i], ws[i + 1], a, b, a + window, Min(b + window, |s|));
  }

  /** All the windows with the first `overlap` elements dropped, end to end. */
  function Rest<T>(windows: seq<seq<T>>, overlap: nat): (r: seq<T>) {
    if windows == [] then []
    else (if |windows[0]| <= overlap then [] else windows[0][overlap..]) + Rest(windows[1..], overlap)
  }

  function Glue<T>(windows: seq<seq<T>>, overlap: nat): (r: seq<T>) {
    if windows == [] then [] else windows[0] + Rest(windows[1..], overlap)
  }

  lemma {:induction false} RestIs<T>(s: seq<T>, start: nat, window: nat, overlap: nat)
    requires start < |s| && start + overlap <= |s| && overlap < window
    ensures Rest(Windows(s, start, window, overlap), overlap) == s[start + overlap..]
    decreases |s| - start
  {
    if start + window < |s| {
      var step := window - overlap;
      RestIs(s, start + step, window, overlap);
      assert s[start..start + window][overlap..] + s[start + step + overlap..] == s[start + overlap..];
    } else {
      assert s[start..][overlap..] == s[start + overlap..];
    }
  }

  lemma OneWindow<T>(s: seq<T>, window: nat, overlap: nat)
    requires 0 < |s| <= window
    ensures Windows(s, 0, window, overlap) == [s]
  {
    assert s[0..|s|] == s;
    assert [s] + [] == [s];
  }

  lemma GlueOne<T>(s: seq<T>, overlap: nat)
    ensures Glue([s], overlap) == s
  {
    assert [s][1..] == [];
    AppendNil(s);
  }

  lemma GlueMany<T>(s: seq<T>, windows: seq<seq<T>>, window: nat, overlap: nat)
    requires window <= |s| && windows != [] && windows[0] == s[0..window]
    requires Rest(windows[1..], overlap) == s[window..]
    ensures Glue(windows, overlap) == s
  {
    assert s[0..window] + s[window..] == s;
  }

  /** Dropping each overlap rebuilds the text: nothing is lost, repeated or moved. */
  lemma WindowsRebuild<T>(s: seq<T>, window: nat, overlap: nat)
    requires overlap < window
    ensures Glue(Windows(s, 0, window, overlap), overlap) == s
  {
    if window < |s| {
      WindowsTail(s, 0, window, overlap);
      RestIs(s, window - overlap, window, overlap);
      GlueMany(s, Windows(s, 0, window, overlap), window, overlap);
    } else if s != [] {
      OneWindow(s, window, overlap);
      GlueOne(s, overlap);
    }
  }

  // ---------------------------------------------------------------- what fits in one window

  /** s[i..i + n] lies in window `k`. */
  ghost predicate Within<T>(s: seq<T>, window: nat, overlap: nat, i: nat, n: nat, k: nat)
    requires overlap < window
  {
    var a := Origin(0, window - overlap, k);
    k < |Windows(s, 0, window, overlap)| && a <= i && i + n <= Min(a + window, |s|)
  }

  ghost predicate Fits<T>(s: seq<T>, window: nat, overlap: nat, i: nat, n: nat)
    requires overlap < window
  {
    exists k: nat :: Within(s, window, overlap, i, n, k)
  }

  ghost predicate AlwaysFits<T>(s: seq<T>, window: nat, overlap: nat, n: nat)
    requires overlap < window
  {
    forall i: nat :: i + n <= |s| ==> Fits(s, window, overlap, i, n)
  }

  lemma {:induction false} CoverFrom<T>(s: seq<T>, start: nat, window: nat, overlap: nat, i: nat, n: nat)
    returns (k: nat)
    requires overlap < window && start <= i && i + n <= |s| && start < |s| && n <= overlap + 1
    ensures k < |Windows(s, start, window, overlap)|
    ensures var a := Origin(start, window - overlap, k); a <= i && i + n <= Min(a + window, |s|)
    decreases |s| - start
  {
    if i + n <= Min(start + window, |s|) {
      k := 0;
    } else {
      WindowsTail(s, start, window, overlap);
      k := CoverFrom(s, start + (window - overlap), window, overlap, i, n);
      k := k + 1;
    }
  }

  /** A stretch that starts before the second window and ends after the first fits in none. */
  lemma Straddles<T>(s: seq<T>, window: nat, overlap: nat, i: nat, n: nat)
    requires overlap < window && i < window - overlap && window < i + n
    ensures !Fits(s, window, overlap, i, n)
  {
    forall k: nat ensures !Within(s, window, overlap, i, n, k) {
      OriginGrows(0, window - overlap, k);
    }
  }

  lemma ShortStretchesFit<T>(s: seq<T>, window: nat, overlap: nat, n: nat)
    requires overlap < window && s != [] && n <= overlap + 1
    ensures AlwaysFits(s, window, overlap, n)
  {
    forall i: nat | i + n <= |s| ensures Fits(s, window, overlap, i, n) {
      var k := CoverFrom(s, 0, window, overlap, i, n);
      assert Within(s, window, overlap, i, n, k);
    }
  }

  lemma OneWindowIsAll<T>(s: seq<T>, window: nat, overlap: nat, n: nat)
    requires overlap < window && 0 < |s| <= window
    ensures AlwaysFits(s, window, overlap, n)
  {
    forall i: nat | i + n <= |s| ensures Fits(s, window, overlap, i, n) {
      assert Within(s, window, overlap, i, n, 0);
    }
  }

  /** Every stretch of `n` elements lies in one window exactly when n is at most overlap + 1, or one window is all. */
  lemma AlwaysFitsIff<T>(s: seq<T>, window: nat, overlap: nat, n: nat)
    requires overlap < window && s != [] && n <= |s|
    ensures AlwaysFits(s, window, overlap, n) <==> n <= overlap + 1 || |s| <= window
  {
    if n <= overlap + 1 {
      ShortStretchesFit(s, window, overlap, n);
    } else if |s| <= window {
      OneWindowIsAll(s, window, overlap, n);
    } else {
      Straddles(s, window, overlap, Min(window - overlap - 1, |s| - n), n);
    }
  }

  // ---------------------------------------------------------------- the emitted chunks

  lemma {:induction false} NonEmptyMembers(texts: seq<string>, c: string)
    ensures c in NonEmpty(texts) <==> c in texts && c != ""
  {
    if texts != [] {
      NonEmptyMembers(texts[1..], c);
      assert texts == [texts[0]] + texts[1..];
    }
  }

  lemma {:induction false} TextsAt<T>(windows: seq<seq<T>>, decode: seq<T> -> string)
    ensures |Texts(windows, decode)| == |windows|
    ensures forall k :: 0 <= k < |windows| ==> Texts(windows, decode)[k] == Strip(decode(windows[k]))
  {
    if windows != [] { TextsAt(windows[1..], decode); }
  }

  /** `c` is the part of `text` that starts at `a`. */
  predicate SliceAt(text: string, c: string, a: nat) {
    a + |c| <= |text| && text[a..a + |c|] == c
  }

  lemma StripIsSlice(s: string) returns (a: nat)
    ensures SliceAt(s, Strip(s), a) && Trimmed(Strip(s))
    ensures forall p :: 0 <= p < |s| && !IsSpace(s[p]) ==> a <= p < a + |Strip(s)|
  {
    var before, after := StripParts(s);
    a := |before|;
    assert forall p :: 0 <= p < a ==> s[p] == before[p];
    assert forall p :: a + |Strip(s)| <= p < |s| ==> s[p] == after[p - a - |Strip(s)|];
  }

  /** A slice of a slice. */
  lemma SliceOfSlice(text: string, a: nat, end: nat, c: string, b: nat)
    requires a <= end <= |text| && SliceAt(text[a..end], c, b)
    ensures SliceAt(text, c, a + b)
  {
    var w := text[a..end];
    assert |c| <= |w| - b;
    forall k | 0 <= k < |c| ensures text[a + b..a + b + |c|][k] == c[k] {
      assert c[k] == w[b + k] == text[a + (b + k)];
    }
  }

  ghost predicate IsSlice(text: string, c: string) {
    exists a: nat :: SliceAt(text, c, a)
  }

  lemma {:induction false} WindowIsSlice(text: string, start: nat, window: nat, overlap: nat, k: nat) returns (a: nat)
    requires overlap < window && k < |Windows(text, start, window, overlap)|
    ensures a <= |text| && Windows(text, start, window, overlap)[k] == text[a..Min(a + window, |text|)]
    decreases k
  {
    if k == 0 {
      a := start;
    } else {
      a := WindowIsSlice(text, start + window - overlap, window, overlap, k - 1);
    }
  }

  lemma WindowAround(text: string, window: nat, overlap: nat, i: nat, n: nat) returns (k: nat, a: nat)
    requires overlap < window && 0 < n <= overlap + 1 && i + n <= |text|
    ensures k < |Windows(text, 0, window, overlap)| && a <= i && i + n <= Min(a + window, |text|)
    ensures Windows(text, 0, window, overlap)[k] == text[a..Min(a + window, |text|)]
  {
    k := CoverFrom(text, 0, window, overlap, i, n);
    WindowAt(text, 0, window, overlap, k);
    a := Origin(0, window - overlap, k);
  }

  /** Every emitted chunk is a non-empty, trimmed slice of the text of at most one window. */
  lemma ChunksOfWindows(text: string, window: nat, overlap: nat, c: string)
    requires overlap < window && c in NonEmpty(Texts(Windows(text, 0, window, overlap), Same))
    ensures c != "" && Trimmed(c) && |c| <= window && IsSlice(text, c)
  {
    var ws := Windows(text, 0, window, overlap);
    NonEmptyMembers(Texts(ws, Same), c);
    TextsAt(ws, Same);
    var k :| 0 <= k < |ws| && Texts(ws, Same)[k] == c;
    var a := WindowIsSlice(text, 0, window, overlap, k);
    var b := StripIsSlice(ws[k]);
    SliceOfSlice(text, a, Min(a + window, |text|), c, b);
  }

  lemma ChunksAreSlices(text: string, c: string)
    requires c in CharChunks(text)
    ensures c != "" && Trimmed(c) && |c| <= 1024 && IsSlice(text, c)
  {
    ChunksOfWindows(text, WINDOW_CHARS, OVERLAP_CHARS, c);
  }

  /** Chunk `c`, cut from the text at `a`, covers text[i..i + n]. */
  ghost predicate Covers(text: string, chunks: seq<string>, i: nat, n: nat, c: string, a: nat) {
    c in chunks && SliceAt(text, c, a) && a <= i && i + n <= a + |c|
  }

  ghost predicate Survives(text: string, chunks: seq<string>, i: nat, n: nat) {
    exists c, a: nat :: Covers(text, chunks, i, n, c, a)
  }

  lemma PhraseOfWindows(text: string, window: nat, overlap: nat, i: nat, n: nat)
    requires overlap < window && 0 < n <= overlap + 1 && i + n <= |text|
    requires !IsSpace(text[i]) && !IsSpace(text[i + n - 1])
    ensures Survives(text, NonEmpty(Texts(Windows(text, 0, window, overlap), Same)), i, n)
  {
    var ws := Windows(text, 0, window, overlap);
    var k, a := WindowAround(text, window, overlap, i, n);
    var w := ws[k];
    assert w[i - a] == text[i] && w[i + n - 1 - a] == text[i + n - 1];
    var b := StripIsSlice(w);
    SliceOfSlice(text, a, Min(a + window, |text|), Strip(w), b);
    TextsAt(ws, Same);
    assert Strip(w) == Texts(ws, Same)[k];
    NonEmptyMembers(Texts(ws, Same), Strip(w));
    assert Covers(text, NonEmpty(Texts(ws, Same)), i, n, Strip(w), a + b);
  }

  /**
   * A phrase of at most 129 characters with no blank at either end survives whole in one emitted chunk; in
   * particular every non-whitespace character survives.
   */
  lemma PhraseSurvives(text: string, i: nat, n: nat)
    requires 0 < n <= 129 && i + n <= |text| && !IsSpace(text[i]) && !IsSpace(text[i + n - 1])
    ensures Survives(text, CharChunks(text), i, n)
  {
    PhraseOfWindows(text, WINDOW_CHARS, OVERLAP_CHARS, i, n);
  }

  lemma {:induction false} BlankTextsVanish(texts: seq<string>)
    requires forall k :: 0 <= k < |texts| ==> texts[k] == ""
    ensures NonEmpty(texts) == []
  {
    if texts != [] { BlankTextsVanish(texts[1..]); }
  }

  lemma StripBlank(s: string)
    ensures Strip(s) == "" <==> Blank(s)
  {
    if Blank(s) {
      StripOf(s, "", "");
      assert s + "" + "" == s;
    } else {
      var a, b := StripParts(s);
      assert Strip(s) == "" ==> s == a + b;
    }
  }

  lemma BlankWindows(text: string, window: nat, overlap: nat)
    requires overlap < window && Blank(text)
    ensures NonEmpty(Texts(Windows(text, 0, window, overlap), Same)) == []
  {
    var ws := Windows(text, 0, window, overlap);
    TextsAt(ws, Same);
    forall k | 0 <= k < |ws| ensures Texts(ws, Same)[k] == "" {
      var _ := WindowIsSlice(text, 0, window, overlap, k);
      StripBlank(ws[k]);
    }
    BlankTextsVanish(Texts(ws, Same));
  }

  lemma BlankTextHasNoChunks(text: string)
    requires Strip(text) == ""
    ensures CharChunks(text) == []
  {
    StripBlank(text);
    BlankWindows(text, WINDOW_CHARS, OVERLAP_CHARS);
  }

  /** Text has no chunks exactly when it is blank. */
  lemma NoChunksIffBlank(text: string)
    ensures CharChunks(text) == [] <==> Blank(text)
  {
    StripBlank(text);
    if Blank(text) {
      BlankTextHasNoChunks(text);
    } else {
      var i :| 0 <= i < |text| && !IsSpace(text[i]);
      PhraseSurvives(text, i, 1);
    }
  }
}
