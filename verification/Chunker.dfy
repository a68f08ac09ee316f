/**
  Splitting a document into overlapping chunks: 500-character windows that start every 450
  characters, stripped of surrounding white space, blank ones dropped. The document is not
  lost: the windows rebuild it, and any stretch of at most 51 characters survives in one chunk.
*/
module Chunker {
  const CHUNK_SIZE: nat := 500
  const CHUNK_OVERLAP: nat := 50
  const STRIDE: nat := 450

  /** Which characters count as white space is the library's business. */
  type Space = char -> bool

  // ---------------------------------------------------------------- stripping

  function StripLeft(space: Space, s: string): string {
    if s != "" && space(s[0]) then StripLeft(space, s[1..]) else s
  }

  function StripRight(space: Space, s: string): string {
    if s != "" && space(s[|s| - 1]) then StripRight(space, s[..|s| - 1]) else s
  }

  function Strip(space: Space, s: string): string {
    StripRight(space, StripLeft(space, s))
  }

  ghost predicate Blank(space: Space, s: string, from: nat, to: nat)
    requires from <= to <= |s|
  {
    forall i :: from <= i < to ==> space(s[i])
  }

  /** `t` is what is left of `s` between `lo` and `hi`, and nothing more can be stripped. */
  ghost predicate StripsTo(space: Space, s: string, lo: nat, hi: nat, t: string) {
    && lo <= hi <= |s|
    && t == s[lo..hi]
    && Blank(space, s, 0, lo)
    && Blank(space, s, hi, |s|)
    && (t != "" ==> !space(t[0]) && !space(t[|t| - 1]))
  }

  lemma {:induction false} StripLeftShape(space: Space, s: string) returns (lo: nat)
    ensures lo <= |s| && StripLeft(space, s) == s[lo..] && Blank(space, s, 0, lo)
    ensures lo < |s| ==> !space(s[lo])
    decreases |s|
  {
    lo := 0;
    if s != "" && space(s[0]) {
      var rest := StripLeftShape(space, s[1..]);
      lo := rest + 1;
      assert forall i :: 1 <= i < lo ==> s[i] == s[1..][i - 1];
    }
  }

  lemma {:induction false} StripRightShape(space: Space, s: string) returns (hi: nat)
    ensures hi <= |s| && StripRight(space, s) == s[..hi] && Blank(space, s, hi, |s|)
    ensures hi > 0 ==> !space(s[hi - 1])
    decreases |s|
  {
    hi := |s|;
    if s != "" && space(s[|s| - 1]) {
      var front := s[..|s| - 1];
      hi := StripRightShape(space, front);
      assert forall i :: hi <= i < |front| ==> s[i] == front[i];
      assert s[..hi] == front[..hi];
    }
  }

  lemma {:induction false} StripShape(space: Space, s: string) returns (lo: nat, hi: nat)
    ensures StripsTo(space, s, lo, hi, Strip(space, s))
  {
    lo := StripLeftShape(space, s);
    var mid := StripRightShape(space, s[lo..]);
    hi := lo + mid;
    assert forall i :: hi <= i < |s| ==> s[i] == s[lo..][i - lo];
    assert s[lo..hi] == s[lo..][..mid];
  }

  lemma {:induction false} SliceOfSlice(s: string, lo: nat, hi: nat, i: nat, j: nat)
    requires lo <= i <= j <= hi <= |s|
    ensures s[lo..hi][i - lo..j - lo] == s[i..j]
  {
    assert |s[lo..hi][i - lo..j - lo]| == |s[i..j]|;
    assert forall p :: 0 <= p < j - i ==>
                         s[lo..hi][i - lo..j - lo][p] == s[lo..hi][i - lo + p] == s[i + p] == s[i..j][p];
  }

  /** Stripping never cuts into a stretch whose two ends are not white space. */
  lemma {:induction false} StripKeeps(space: Space, s: string, i: nat, j: nat) returns (lo: nat)
    requires i < j <= |s| && !space(s[i]) && !space(s[j - 1])
    ensures lo <= i && j - lo <= |Strip(space, s)| && Strip(space, s)[i - lo..j - lo] == s[i..j]
  {
    var hi: nat;
    lo, hi := StripShape(space, s);
    SliceOfSlice(s, lo, hi, i, j);
  }

  /** A string is stripped to nothing exactly when it is blank. */
  lemma {:induction false} StripEmptyIff(space: Space, s: string)
    ensures Strip(space, s) == "" <==> Blank(space, s, 0, |s|)
  {
    var lo, hi := StripShape(space, s);
    if Strip(space, s) != "" {
      assert Strip(space, s)[0] == s[lo];
    }
  }

  // ---------------------------------------------------------------- windows

  /** A slice as the source's language takes it: the upper end may run past the text. */
  function Slice(text: string, start: nat, end: nat): string
    requires start <= |text| && start <= end
  {
    text[start..if end <= |text| then end else |text|]
  }

  function Windows(text: string, start: nat): seq<string>
    decreases |text| - start
  {
    if start >= |text| then []
    else [Slice(text, start, start + CHUNK_SIZE)] + Windows(text, start + STRIDE)
  }

  function Trimmed(space: Space, windows: seq<string>): seq<string> {
    if windows == [] then []
    else
      var chunk := Strip(space, windows[0]);
      (if chunk == "" then [] else [chunk]) + Trimmed(space, windows[1..])
  }

  function Chunks(space: Space, text: string): seq<string> {
    Trimmed(space, Windows(text, 0))
  }

  /** What an iteration adds, and what is left to add after it. */
  lemma {:induction false} ChunksFrom(space: Space, text: string, start: nat, chunks: seq<string>)
    requires start < |text|
    ensures var chunk := Strip(space, Slice(text, start, start + CHUNK_SIZE));
            (if chunk != "" then chunks + [chunk] else chunks) + Trimmed(space, Windows(text, start + STRIDE))
            == chunks + Trimmed(space, Windows(text, start))
  {
    assert Windows(text, start)[1..] == Windows(text, start + STRIDE);
    var chunk := Strip(space, Slice(text, start, start + CHUNK_SIZE));
    var rest := Trimmed(space, Windows(text, start + STRIDE));
    if chunk == "" {
      assert Trimmed(space, Windows(text, start)) == [] + rest == rest;
    } else {
      assert Trimmed(space, Windows(text, start)) == [chunk] + rest;
      assert (chunks + [chunk]) + rest == chunks + ([chunk] + rest);
    }
  }

  method SplitIntoChunks(space: Space, text: string) returns (chunks: seq<string>)
    ensures chunks == Chunks(space, text)
  {
    if text == "" {
      return [];
    }
    chunks := [];
    var start := 0;
    while start < |text|
      invariant chunks + Trimmed(space, Windows(text, start)) == Chunks(space, text)
      decreases |text| - start
    {
      var end := start + CHUNK_SIZE;
      var chunk := Slice(text, start, end);
      ChunksFrom(space, text, start, chunks);
      if Strip(space, chunk) != "" {
        chunks := chunks + [Strip(space, chunk)];
      }
      start := end - CHUNK_OVERLAP;
      if start >= |text| {
        break;
      }
    }
    assert Trimmed(space, Windows(text, start)) == [];
  }

  /** Where window `k` starts. */
  function At(k: nat): nat {
    450 * k
  }

  /** There is a window for every multiple of 450 inside the text, and it is that slice. */
  lemma {:induction false} WindowAt(text: string, start: nat, k: nat)
    ensures k < |Windows(text, start)| <==> start + At(k) < |text|
    ensures k < |Windows(text, start)| ==>
              Windows(text, start)[k] == Slice(text, start + At(k), start + At(k) + CHUNK_SIZE)
    decreases k
  {
    if start < |text| && k > 0 {
      WindowAt(text, start + STRIDE, k - 1);
      assert Windows(text, start)[1..] == Windows(text, start + STRIDE);
    }
  }

  /** The windows of a text, character by character. */
  lemma {:induction false} WindowsAre(text: string, k: nat)
    ensures k < |Windows(text, 0)| <==> 450 * k < |text|
    ensures 450 * k < |text| ==>
              var w := Windows(text, 0)[k];
              && |w| == (if 450 * k + 500 <= |text| then 500 else |text| - 450 * k)
              && forall i :: 0 <= i < |w| ==> w[i] == text[450 * k + i]
  {
    WindowAt(text, 0, k);
  }

  /** The chunks are the windows one by one, without white space around them and without those that
      are nothing else. */
  lemma {:induction false} TrimmedOfSum(space: Space, a: seq<string>, b: seq<string>)
    ensures Trimmed(space, a + b) == Trimmed(space, a) + Trimmed(space, b)
  {
    if a == [] {
      assert a + b == b;
    } else {
      var chunk := Strip(space, a[0]);
      var head := if chunk == "" then [] else [chunk];
      TrimmedOfSum(space, a[1..], b);
      assert (a + b)[1..] == a[1..] + b;
      assert Trimmed(space, a + b) == head + (Trimmed(space, a[1..]) + Trimmed(space, b));
    }
  }

  lemma {:induction false} TrimmedOne(space: Space, w: string) returns (lo: nat, hi: nat)
    ensures Trimmed(space, []) == []
    ensures lo <= hi <= |w| && StripsTo(space, w, lo, hi, w[lo..hi])
    ensures Trimmed(space, [w]) == if Blank(space, w, 0, |w|) then [] else [w[lo..hi]]
  {
    lo, hi := StripShape(space, w);
    StripEmptyIff(space, w);
    assert [w][1..] == [];
  }

  /** The windows with the first 50 characters of all but the first dropped, glued together. */
  function Glued(windows: seq<string>): string {
    if windows == [] then "" else windows[0] + Tails(windows[1..])
  }

  function Tails(windows: seq<string>): string {
    if windows == [] then ""
    else (if |windows[0]| < CHUNK_OVERLAP then "" else windows[0][CHUNK_OVERLAP..]) + Tails(windows[1..])
  }

  lemma {:induction false} TailsRebuild(text: string, start: nat)
    requires start >= STRIDE && start < |text| + STRIDE
    ensures Tails(Windows(text, start))
         == (if start + CHUNK_OVERLAP <= |text| then text[start + CHUNK_OVERLAP..] else "")
    decreases |text| + STRIDE - start
  {
    if start < |text| {
      var w := Windows(text, start);
      assert w[1..] == Windows(text, start + STRIDE);
      TailsRebuild(text, start + STRIDE);
    }
  }

  /** Nothing is lost and nothing is doubled: dropping the overlaps rebuilds the text. */
  lemma {:induction false} WindowsRebuild(text: string)
    ensures Glued(Windows(text, 0)) == text
  {
    if text != "" {
      assert Windows(text, 0)[1..] == Windows(text, STRIDE);
      TailsRebuild(text, STRIDE);
    }
  }

  // ---------------------------------------------------------------- what survives in one chunk

  ghost predicate Occurs(part: string, s: string) {
    exists p: nat :: OccursAt(part, s, p)
  }

  ghost predicate OccursAt(part: string, s: string, p: nat) {
    p + |part| <= |s| && s[p..p + |part|] == part
  }

  ghost predicate InSomeChunk(space: Space, text: string, part: string) {
    exists c :: 0 <= c < |Chunks(space, text)| && Occurs(part, Chunks(space, text)[c])
  }

  lemma {:induction false} TrimmedHas(space: Space, windows: seq<string>, k: nat)
    requires k < |windows| && Strip(space, windows[k]) != ""
    ensures Strip(space, windows[k]) in Trimmed(space, windows)
  {
    if k > 0 {
      TrimmedHas(space, windows[1..], k - 1);
    }
  }

  lemma {:induction false} TrimmedFrom(space: Space, windows: seq<string>, chunk: string) returns (k: nat)
    requires chunk in Trimmed(space, windows)
    ensures k < |windows| && chunk == Strip(space, windows[k]) && chunk != ""
  {
    k := 0;
    var first := Strip(space, windows[0]);
    if first == "" || chunk != first {
      var rest := TrimmedFrom(space, windows[1..], chunk);
      k := rest + 1;
    }
  }

  lemma {:induction false} WindowStretch(text: string, k: nat, lo: nat, hi: nat)
    requires k < |Windows(text, 0)| && lo <= hi <= |Windows(text, 0)[k]|
    ensures At(k) + hi <= |text| && hi <= CHUNK_SIZE
    ensures Windows(text, 0)[k][lo..hi] == text[At(k) + lo..At(k) + hi]
  {
    WindowAt(text, 0, k);
    var end := if At(k) + CHUNK_SIZE <= |text| then At(k) + CHUNK_SIZE else |text|;
    SliceOfSlice(text, At(k), end, At(k) + lo, At(k) + hi);
  }

  /** Every chunk is a stretch of the text of at most 500 characters with no white space at its ends. */
  lemma {:induction false} ChunkIsStretch(space: Space, text: string, chunk: string) returns (k: nat, i: nat, j: nat)
    requires chunk in Chunks(space, text)
    ensures At(k) <= i < j <= |text| && j <= At(k) + CHUNK_SIZE
    ensures chunk == text[i..j] && !space(text[i]) && !space(text[j - 1])
  {
    k := TrimmedFrom(space, Windows(text, 0), chunk);
    var lo, hi := StripShape(space, Windows(text, 0)[k]);
    WindowStretch(text, k, lo, hi);
    i, j := At(k) + lo, At(k) + hi;
    assert chunk[0] == text[i] && chunk[|chunk| - 1] == text[j - 1];
  }

  /** The window that holds position `i`, when the stretch from there fits in it. */
  lemma {:induction false} OwnWindow(text: string, i: nat, j: nat)
    requires i < j <= |text| && i % STRIDE + (j - i) <= CHUNK_SIZE
    ensures i / STRIDE < |Windows(text, 0)|
    ensures i % STRIDE + (j - i) <= |Windows(text, 0)[i / STRIDE]|
    ensures Windows(text, 0)[i / STRIDE][i % STRIDE..i % STRIDE + (j - i)] == text[i..j]
  {
    WindowAt(text, 0, i / STRIDE);
    WindowStretch(text, i / STRIDE, i % STRIDE, i % STRIDE + (j - i));
  }

  /** A stretch that fits between its own window's start and end survives stripping. */
  lemma {:induction false} StretchSurvives(space: Space, text: string, i: nat, j: nat)
    requires i < j <= |text| && !space(text[i]) && !space(text[j - 1])
    requires i % STRIDE + (j - i) <= CHUNK_SIZE
    ensures InSomeChunk(space, text, text[i..j])
  {
    var k, at, len := i / STRIDE, i % STRIDE, j - i;
    OwnWindow(text, i, j);
    var w := Windows(text, 0)[k];
    EndsOf(w, at, len, text[i..j]);
    var lo := StripKeeps(space, w, at, at + len);
    TrimmedHas(space, Windows(text, 0), k);
    var c :| 0 <= c < |Chunks(space, text)| && Chunks(space, text)[c] == Strip(space, w);
    assert OccursAt(text[i..j], Chunks(space, text)[c], at - lo);
  }

  lemma {:induction false} EndsOf(w: string, at: nat, len: nat, part: string)
    requires len > 0 && at + len <= |w| && w[at..at + len] == part
    ensures w[at] == part[0] && w[at + len - 1] == part[len - 1]
  {
    assert w[at..at + len][0] == w[at] && w[at..at + len][len - 1] == w[at + len - 1];
  }

  /**
    The overlap guarantee: any stretch of at most 51 characters that starts and ends with a
    character other than white space lies wholly inside one chunk.
  */
  lemma {:induction false} ShortStretchSurvives(space: Space, text: string, i: nat, j: nat)
    requires i < j <= |text| && j - i <= CHUNK_OVERLAP + 1
    requires !space(text[i]) && !space(text[j - 1])
    ensures InSomeChunk(space, text, text[i..j])
  {
    StretchSurvives(space, text, i, j);
  }

  /** Character positions `i` to `j` lie in the part of window `k` that stripping leaves. */
  ghost predicate Covers(space: Space, text: string, k: nat, i: nat, j: nat) {
    && k < |Windows(text, 0)|
    && exists lo: nat, hi: nat ::
         StripsTo(space, Windows(text, 0)[k], lo, hi, Strip(space, Windows(text, 0)[k]))
         && At(k) + lo <= i && j <= At(k) + hi
  }

  lemma {:induction false} PlaceInChunk(text: string, from: nat, to: nat, i: nat, j: nat, p: nat)
    requires i < j <= |text| && from <= to <= |text|
    requires forall a, b :: 0 <= a < b < |text| ==> text[a] != text[b]
    requires OccursAt(text[i..j], text[from..to], p)
    ensures from <= i && j <= to
  {
    assert text[from..to][p] == text[from..to][p..p + (j - i)][0] == text[i..j][0];
  }

  /**
    The guarantee is exact. Where characters do not repeat, so that a stretch can be found in
    one place only, it survives exactly when it ends before its own window does; from 52
    characters on, some positions fail.
  */
  lemma {:induction false} SurvivesIff(space: Space, text: string, i: nat, j: nat)
    requires i < j <= |text| && !space(text[i]) && !space(text[j - 1])
    requires forall a, b :: 0 <= a < b < |text| ==> text[a] != text[b]
    ensures InSomeChunk(space, text, text[i..j]) <==> i % STRIDE + (j - i) <= CHUNK_SIZE
  {
    if i % STRIDE + (j - i) <= CHUNK_SIZE {
      StretchSurvives(space, text, i, j);
    }
    if InSomeChunk(space, text, text[i..j]) {
      var c :| 0 <= c < |Chunks(space, text)| && Occurs(text[i..j], Chunks(space, text)[c]);
      var chunk := Chunks(space, text)[c];
      var p: nat :| OccursAt(text[i..j], chunk, p);
      var k, from, to := ChunkIsStretch(space, text, chunk);
      PlaceInChunk(text, from, to, i, j, p);
      OwnWindowIsBest(i, j, k);
    }
  }

  /** Of all windows that start at or before `i`, the last one reaches furthest. */
  lemma {:induction false} OwnWindowIsBest(i: nat, j: nat, k: nat)
    requires At(k) <= i <= j <= At(k) + CHUNK_SIZE
    ensures i % STRIDE + (j - i) <= CHUNK_SIZE
  {
    assert k <= i / STRIDE;
  }

  /** A stretch that ends before its own window does lies in what stripping leaves of that window. */
  lemma {:induction false} OwnWindowCovers(space: Space, text: string, i: nat, j: nat)
    requires i < j <= |text| && !space(text[i]) && !space(text[j - 1])
    requires i % STRIDE + (j - i) <= CHUNK_SIZE
    ensures Covers(space, text, i / STRIDE, i, j)
  {
    var k, at := i / STRIDE, i % STRIDE;
    OwnWindow(text, i, j);
    var w := Windows(text, 0)[k];
    EndsOf(w, at, j - i, text[i..j]);
    var lo, hi := StripShape(space, w);
    assert lo <= at && at + (j - i) <= hi;
  }

  /**
    The same for every text, position by position: some window keeps the stretch at `i` whole
    exactly when it ends before its own window does.
  */
  lemma {:induction false} CoveredIff(space: Space, text: string, i: nat, j: nat)
    requires i < j <= |text| && !space(text[i]) && !space(text[j - 1])
    ensures (exists k: nat :: Covers(space, text, k, i, j)) <==> i % STRIDE + (j - i) <= CHUNK_SIZE
  {
    if k: nat :| Covers(space, text, k, i, j) {
      WindowAt(text, 0, k);
      OwnWindowIsBest(i, j, k);
    }
    if i % STRIDE + (j - i) <= CHUNK_SIZE {
      OwnWindowCovers(space, text, i, j);
    }
  }

  /** From 52 characters on the guarantee ends: every long enough text has a stretch no window holds. */
  lemma {:induction false} LongerStretchesCanFail(space: Space, text: string, len: nat) returns (i: nat, j: nat)
    requires len > CHUNK_OVERLAP + 1 && STRIDE - 1 + len <= |text|
    requires !space(text[STRIDE - 1]) && !space(text[STRIDE - 2 + len])
    ensures i < j == i + len <= |text| && !space(text[i]) && !space(text[j - 1])
    ensures !exists k: nat :: Covers(space, text, k, i, j)
  {
    i, j := STRIDE - 1, STRIDE - 1 + len;
    CoveredIff(space, text, i, j);
  }
}
