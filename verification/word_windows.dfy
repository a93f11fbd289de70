/**
 * Word windows with overlap, shared by the three window chunkers of the repository:
 * window `k` of a word list is `words[k*step : k*step + size]` (a Python slice, clamped to
 * the list), for every `k` whose start `k*step` lies inside the list. With `step = size - overlap`
 * consecutive windows share `overlap` words.
 */
module WordWindows {
  import opened Text

  /** Python's `xs[lo:hi]` for non-negative bounds: both ends are clamped to the length. */
  function Slice<T>(xs: seq<T>, lo: nat, hi: nat): seq<T> {
    var a := if lo <= |xs| then lo else |xs|;
    var b := if hi <= |xs| then hi else |xs|;
    if a <= b then xs[a..b] else []
  }

  /** Window `k`: up to `size` words starting at word `k * step`. */
  function Window(words: seq<string>, size: nat, step: nat, k: nat): seq<string> {
    Slice(words, k * step, k * step + size)
  }

  /** The number of starts `0, step, 2*step, ...` below `n`, i.e. ceil(n / step). */
  function WindowCount(n: nat, step: nat): nat
    requires step > 0
  {
    (n + step - 1) / step
  }

  /** The chunk strings: every window, its words joined by single spaces. */
  function WindowChunks(words: seq<string>, size: nat, step: nat): seq<string>
    requires step > 0
  {
    seq(WindowCount(|words|, step), k requires 0 <= k < WindowCount(|words|, step) => Join(" ", Window(words, size, step, k)))
  }

  lemma MulMono(a: nat, b: nat, c: nat)
    requires a <= b
    ensures a * c <= b * c
  {
    assert b * c == a * c + (b - a) * c;
  }

  /** Window `k` exists exactly when its start lies inside the word list. */
  lemma WindowCountBound(n: nat, step: nat, k: nat)
    requires step > 0
    ensures k < WindowCount(n, step) <==> k * step < n
  {
    var c := WindowCount(n, step);
    var r := (n + step - 1) % step;
    assert c * step + r == n + step - 1 && 0 <= r < step;
    if k < c {
      MulMono(k + 1, c, step);
      assert (k + 1) * step == k * step + step;
    } else {
      MulMono(c, k, step);
    }
  }

  /** The window count is ceil(n / step): enough windows to reach every word, and not one more. */
  lemma WindowCountCeil(n: nat, step: nat)
    requires step > 0
    ensures WindowCount(n, step) * step >= n
    ensures n == 0 || (WindowCount(n, step) - 1) * step < n
  {
    var c := WindowCount(n, step);
    WindowCountBound(n, step, c);
    if c > 0 {
      WindowCountBound(n, step, c - 1);
    }
  }

  /** Floor division places `i` inside the step-wide block that starts at `(i / step) * step`. */
  lemma DivWindow(i: nat, step: nat)
    requires step > 0
    ensures (i / step) * step <= i < (i / step) * step + step
  {
  }

  /**
   * Every window holds between 1 and `size` words, taken consecutively from its start;
   * a window with fewer than `size` words runs to the end of the list.
   */
  lemma WindowShape(words: seq<string>, size: nat, step: nat, k: nat)
    requires step > 0 && size >= 1 && k < WindowCount(|words|, step)
    ensures 1 <= |Window(words, size, step, k)| <= size
    ensures Window(words, size, step, k) == words[k * step..k * step + |Window(words, size, step, k)|]
    ensures |Window(words, size, step, k)| < size ==> k * step + |Window(words, size, step, k)| == |words|
  {
    WindowCountBound(|words|, step, k);
  }

  /**
   * The loop view of the windows: at a start `i = k * step` inside the list, window `k`
   * exists, it is the clamped slice from `i`, and the next start is that of window `k + 1`.
   */
  lemma WindowAt(words: seq<string>, size: nat, step: nat, k: nat, i: nat)
    requires step > 0 && i == k * step && i < |words|
    ensures k < WindowCount(|words|, step)
    ensures words[i..if i + size <= |words| then i + size else |words|] == Window(words, size, step, k)
    ensures i + step == (k + 1) * step
  {
    WindowCountBound(|words|, step, k);
  }

  /** A window of real words never joins to blank text, so a blank-skipping chunker keeps it. */
  lemma WindowNotBlank(words: seq<string>, size: nat, step: nat, k: nat)
    requires step > 0 && size >= 1 && AllWords(words) && k < WindowCount(|words|, step)
    ensures !IsBlank(Join(" ", Window(words, size, step, k)))
  {
    var w := Window(words, size, step, k);
    WindowShape(words, size, step, k);
    assert forall t :: 0 <= t < |w| ==> w[t] == words[k * step + t];
    JoinedWordsNotBlank(w);
  }

  /** Only trailing windows can be short: once a window is short, every later one is short too. */
  lemma ShortWindowsTrail(words: seq<string>, size: nat, step: nat, k: nat, j: nat)
    requires step > 0 && k < j < WindowCount(|words|, step)
    requires |Window(words, size, step, k)| < size
    ensures |Window(words, size, step, j)| < size
  {
    WindowCountBound(|words|, step, k);
    WindowCountBound(|words|, step, j);
    MulMono(k, j, step);
  }

  /**
   * Consecutive windows overlap: when window `k` is full, its last `size - step` words are the
   * first `size - step` words of window `k + 1`.
   */
  lemma WindowOverlap(words: seq<string>, size: nat, step: nat, k: nat)
    requires 0 < step <= size && k + 1 < WindowCount(|words|, step)
    requires |Window(words, size, step, k)| == size
    ensures |Window(words, size, step, k + 1)| >= size - step
    ensures Window(words, size, step, k)[step..] == Window(words, size, step, k + 1)[..size - step]
  {
    WindowCountBound(|words|, step, k);
    WindowCountBound(|words|, step, k + 1);
    var s := k * step;
    assert (k + 1) * step == s + step;
    assert s + size <= |words|;
    var w := Window(words, size, step, k);
    var w' := Window(words, size, step, k + 1);
    assert w == words[s..s + size];
    assert w'[..size - step] == words[s + step..s + size];
  }

  /**
   * The windows cover the list when they do not skip words (`step <= size`): every word index
   * lies in some window, at the position its start implies.
   */
  lemma WindowsCover(words: seq<string>, size: nat, step: nat, i: nat)
    requires 0 < step <= size && i < |words|
    ensures exists k ::
              (0 <= k < WindowCount(|words|, step) && k * step <= i &&
               i - k * step < |Window(words, size, step, k)| && Window(words, size, step, k)[i - k * step] == words[i])
  {
    var k := i / step;
    DivWindow(i, step);
    WindowCountBound(|words|, step, k);
    assert Window(words, size, step, k)[i - k * step] == words[i];
  }

  /** Splitting a chunk on whitespace gives back exactly its window of words. */
  lemma ChunkWords(words: seq<string>, size: nat, step: nat, k: nat)
    requires step > 0 && AllWords(words) && k < WindowCount(|words|, step)
    ensures Split(WindowChunks(words, size, step)[k]) == Window(words, size, step, k)
  {
    var w := Window(words, size, step, k);
    assert forall i :: 0 <= i < |w| ==> w[i] in words;
    SplitJoin(w);
  }

  /** Empty or whitespace-only text has no words, hence no chunks. */
  lemma BlankTextNoChunks(text: string, size: nat, step: nat)
    requires step > 0 && IsBlank(text)
    ensures WindowChunks(Split(text), size, step) == []
  {
    SplitEmptyIffBlank(text);
  }

  /** With the defaults `size = 500, overlap = 100`, 1200 words give windows starting at 0, 400 and 800, the last holding 400 words. */
  lemma TwelveHundredWords(words: seq<string>)
    requires |words| == 1200
    ensures WindowCount(|words|, 400) == 3
    ensures Window(words, 500, 400, 0) == words[0..500]
    ensures Window(words, 500, 400, 1) == words[400..900]
    ensures Window(words, 500, 400, 2) == words[800..1200]
  {
  }
}
