/** Which windows become chunks, in which order. */
module ChunkOrder {
  import opened Chunker
  import opened Text

  predicate Ascends(at: seq<nat>) { forall i, j :: 0 <= i < j < |at| ==> at[i] < at[j] }

  predicate Picks(texts: seq<string>, kept: seq<string>, at: seq<nat>) {
    |at| == |kept| && forall i :: 0 <= i < |at| ==> at[i] < |texts| && kept[i] == texts[at[i]] && kept[i] != ""
  }

  predicate LeavesOutEmpty(texts: seq<string>, at: seq<nat>) {
    forall k :: 0 <= k < |texts| && texts[k] != "" ==> k in at
  }

  /** `kept` are the texts at these positions, which go up, and they are all that are not empty. */
  predicate KeptAt(texts: seq<string>, kept: seq<string>, at: seq<nat>) {
    Ascends(at) && Picks(texts, kept, at) && LeavesOutEmpty(texts, at)
  }

  function Later(at: seq<nat>): (r: seq<nat>)
    ensures |r| == |at| && forall i :: 0 <= i < |at| ==> r[i] == at[i] + 1
  {
    seq(|at|, i requires 0 <= i < |at| => at[i] + 1)
  }

  lemma {:induction false} LaterHas(at: seq<nat>, k: nat)
    requires k in at
    ensures k + 1 in Later(at)
  {
    var i :| 0 <= i < |at| && at[i] == k;
    assert Later(at)[i] == k + 1;
  }

  lemma {:induction false} EmptyIsSkipped(texts: seq<string>, kept: seq<string>, at: seq<nat>)
    requires texts != [] && texts[0] == "" && KeptAt(texts[1..], kept, at)
    ensures KeptAt(texts, kept, Later(at))
  {
    forall k | 0 <= k < |texts| && texts[k] != "" ensures k in Later(at) {
      assert texts[1..][k - 1] == texts[k];
      LaterHas(at, k - 1);
    }
  }

  lemma {:induction false} StillAscends(at: seq<nat>)
    requires Ascends(at)
    ensures Ascends([0] + Later(at))
  {
    var all := [0] + Later(at);
    forall i, j | 0 <= i < j < |all| ensures all[i] < all[j] {
      if i > 0 { assert at[i - 1] < at[j - 1]; }
    }
  }

  lemma {:induction false} StillPicks(texts: seq<string>, kept: seq<string>, at: seq<nat>)
    requires texts != [] && texts[0] != "" && Picks(texts[1..], kept, at)
    ensures Picks(texts, [texts[0]] + kept, [0] + Later(at))
  {
    var (all, every) := ([0] + Later(at), [texts[0]] + kept);
    forall i | 0 <= i < |all| ensures all[i] < |texts| && every[i] == texts[all[i]] && every[i] != "" {
      if i > 0 {
        assert every[i] == kept[i - 1] && all[i] == at[i - 1] + 1;
        assert at[i - 1] < |texts[1..]|;
      }
    }
  }

  lemma {:induction false} StillLeavesOutEmpty(texts: seq<string>, at: seq<nat>)
    requires texts != [] && LeavesOutEmpty(texts[1..], at)
    ensures LeavesOutEmpty(texts, [0] + Later(at))
  {
    forall k | 0 <= k < |texts| && texts[k] != "" ensures k in [0] + Later(at) {
      if k > 0 {
        assert texts[1..][k - 1] == texts[k];
        LaterHas(at, k - 1);
      }
    }
  }

  lemma {:induction false} KeptInOrder(texts: seq<string>) returns (at: seq<nat>)
    ensures KeptAt(texts, NonEmpty(texts), at)
  {
    if texts == [] {
      at := [];
    } else {
      var rest := KeptInOrder(texts[1..]);
      if texts[0] == "" {
        EmptyIsSkipped(texts, NonEmpty(texts[1..]), rest);
        at := Later(rest);
      } else {
        StillAscends(rest);
        StillPicks(texts, NonEmpty(texts[1..]), rest);
        StillLeavesOutEmpty(texts, rest);
        at := [0] + Later(rest);
      }
    }
  }

  // ---------------------------------------------------------------- the windows

  /** Part `k` is there: it starts in the text, and the part before it did not reach the end. */
  predicate IsPart(length: nat, step: nat, window: nat, k: nat) {
    k * step < length && (k > 0 ==> k * step - step + window < length)
  }

  function Part<T>(s: seq<T>, step: nat, window: nat, k: nat): (r: seq<T>) {
    if k * step >= |s| then [] else s[k * step..Min(k * step + window, |s|)]
  }

  lemma {:induction false} CharWindowAt(text: string, k: nat)
    requires k < |Windows(text, 0, 1024, 128)|
    ensures k * 896 < |text| && Windows(text, 0, 1024, 128)[k] == text[k * 896..Min(k * 896 + 1024, |text|)]
    ensures k + 1 == |Windows(text, 0, 1024, 128)| <==> |text| <= k * 896 + 1024
  {
    WindowIs(text, 0, 1024, 128, k);
  }

  lemma {:induction false} CharWindows(text: string, k: nat)
    ensures k < |Windows(text, 0, 1024, 128)| <==> IsPart(|text|, 896, 1024, k)
    ensures k < |Windows(text, 0, 1024, 128)| ==> Windows(text, 0, 1024, 128)[k] == Part(text, 896, 1024, k)
  {
    var n := |Windows(text, 0, 1024, 128)|;
    if k < n {
      CharWindowAt(text, k);
      if k > 0 { CharWindowAt(text, k - 1); }
    } else if n > 0 {
      CharWindowAt(text, n - 1);
    }
  }

  lemma {:induction false} TokenWindowAt<T>(tokens: seq<T>, k: nat)
    requires k < |Windows(tokens, 0, 256, 32)|
    ensures k * 224 < |tokens| && Windows(tokens, 0, 256, 32)[k] == tokens[k * 224..Min(k * 224 + 256, |tokens|)]
    ensures k + 1 == |Windows(tokens, 0, 256, 32)| <==> |tokens| <= k * 224 + 256
  {
    WindowIs(tokens, 0, 256, 32, k);
  }

  lemma {:induction false} TokenWindows<T>(tokens: seq<T>, k: nat)
    ensures k < |Windows(tokens, 0, 256, 32)| <==> IsPart(|tokens|, 224, 256, k)
    ensures k < |Windows(tokens, 0, 256, 32)| ==> Windows(tokens, 0, 256, 32)[k] == Part(tokens, 224, 256, k)
  {
    var n := |Windows(tokens, 0, 256, 32)|;
    if k < n {
      TokenWindowAt(tokens, k);
      if k > 0 { TokenWindowAt(tokens, k - 1); }
    } else if n > 0 {
      TokenWindowAt(tokens, n - 1);
    }
  }

  /** `chunks` are the decoded, stripped parts at these positions, which go up; the other parts are blank. */
  ghost predicate PartsInOrder<T>(s: seq<T>, step: nat, window: nat, decode: seq<T> -> string, chunks: seq<string>,
                                  at: seq<nat>) {
    && |at| == |chunks| && Ascends(at)
    && (forall i :: 0 <= i < |at| ==>
          IsPart(|s|, step, window, at[i]) && chunks[i] == Strip(decode(Part(s, step, window, at[i]))))
    && forall k: nat :: IsPart(|s|, step, window, k) ==> k in at || Strip(decode(Part(s, step, window, k))) == ""
  }

  lemma {:induction false} ChunksOf<T>(s: seq<T>, step: nat, window: nat, decode: seq<T> -> string, ws: seq<seq<T>>)
    returns (at: seq<nat>)
    requires forall k: nat :: k < |ws| <==> IsPart(|s|, step, window, k)
    requires forall k: nat :: k < |ws| ==> ws[k] == Part(s, step, window, k)
    ensures PartsInOrder(s, step, window, decode, NonEmpty(Texts(ws, decode)), at)
  {
    at := KeptInOrder(Texts(ws, decode));
    TextsAt(ws, decode);
  }

  /**
   * The chunks of a text are its windows of 1024 characters, one every 896, stripped and in order, less those that
   * are blank.
   */
  lemma {:induction false} CharChunksInOrder(text: string) returns (at: seq<nat>)
    ensures PartsInOrder(text, 896, 1024, Same, CharChunks(text), at)
  {
    forall k: nat
      ensures k < |Windows(text, 0, 1024, 128)| <==> IsPart(|text|, 896, 1024, k)
      ensures k < |Windows(text, 0, 1024, 128)| ==> Windows(text, 0, 1024, 128)[k] == Part(text, 896, 1024, k)
    {
      CharWindows(text, k);
    }
    at := ChunksOf(text, 896, 1024, Same, Windows(text, 0, 1024, 128));
  }

  /** Of its tokens, the windows of 256, one every 224, each decoded. */
  lemma {:induction false} TokenChunksInOrder<T>(tokens: seq<T>, decode: seq<T> -> string) returns (at: seq<nat>)
    ensures PartsInOrder(tokens, 224, 256, decode, TokenChunks(tokens, decode), at)
  {
    forall k: nat
      ensures k < |Windows(tokens, 0, 256, 32)| <==> IsPart(|tokens|, 224, 256, k)
      ensures k < |Windows(tokens, 0, 256, 32)| ==> Windows(tokens, 0, 256, 32)[k] == Part(tokens, 224, 256, k)
    {
      TokenWindows(tokens, k);
    }
    at := ChunksOf(tokens, 224, 256, decode, Windows(tokens, 0, 256, 32));
  }
}
