/**
 * Configuration (src/config/config.js) and the shared download-URL pattern
 * `/(pdf|jpeg|...|rar)$/gmi`.
 */
module Config {
  import opened Wrappers

  /** Default number of tasks crawled concurrently per round. */
  const BATCH_SIZE: int := 25

  /** The alternatives of the pattern, in the order the pattern tries them. */
  const DownloadWords: seq<string> := [
    "pdf", "jpeg", "txt", "mp4", "mp3", "mkv", "jpg", "png", "zip", "7z",
    "exe", "css", "js", "gif", "csv", "tar", "doc", "docx", "bmp", "rar"]

  /** Every alternative is at least two characters long. */
  lemma DownloadWordsAreLong()
    ensures forall j :: 0 <= j < |DownloadWords| ==> |DownloadWords[j]| >= 2
  {
    forall j | 0 <= j < |DownloadWords| ensures |DownloadWords[j]| >= 2 {
      assert DownloadWords[j] in DownloadWords;
    }
  }

  /** Case folding of the `i` flag: the words are ASCII, and only ASCII letters fold onto ASCII. */
  function Lower(c: char): char {
    if 'A' <= c <= 'Z' then (c as int + 32) as char else c
  }

  function LowerSeq(s: string): (r: string)
    ensures |r| == |s|
  {
    seq(|s|, i requires 0 <= i < |s| => Lower(s[i]))
  }

  /** Under the `m` flag, `$` matches at the end of input and before every line terminator. */
  predicate LineEnd(s: string, p: int)
    requires 0 <= p <= |s|
  {
    p == |s| || s[p] in {'\n', '\r', '\U{2028}', '\U{2029}'}
  }

  /** Word `w` followed by `$` matches at position `q` of `s`. */
  predicate WordMatchesAt(s: string, q: int, w: string) {
    0 <= q && q + |w| <= |s| && LowerSeq(s[q..q + |w|]) == w && LineEnd(s, q + |w|)
  }

  /** The first alternative of `words`, from index `k` on, that lets the pattern match at `q`. */
  function WordIndexAt(words: seq<string>, s: string, q: int, k: nat): (r: Option<nat>)
    requires k <= |words|
    ensures r.Some? ==> k <= r.value < |words| && WordMatchesAt(s, q, words[r.value])
    ensures r.Some? ==> forall j :: k <= j < r.value ==> !WordMatchesAt(s, q, words[j])
    ensures r.None? ==> forall j :: k <= j < |words| ==> !WordMatchesAt(s, q, words[j])
    decreases |words| - k
  {
    if k == |words| then None
    else if WordMatchesAt(s, q, words[k]) then Some(k)
    else WordIndexAt(words, s, q, k + 1)
  }

  /** A match of the pattern `(words)$` starts at `q`. */
  predicate MatchStartsAt(words: seq<string>, s: string, q: int) {
    WordIndexAt(words, s, q, 0).Some?
  }

  /** The pattern matches somewhere at or after `from` (a global-flag search from `lastIndex`). */
  predicate MatchFrom(words: seq<string>, s: string, from: nat) {
    exists q :: from <= q <= |s| && MatchStartsAt(words, s, q)
  }

  /**
   * A URL names a download: the shared pattern matches it when the search starts at 0.
   * Every word has at least two characters, so a shorter URL never does.
   */
  function IsDownloadUrl(s: string): (r: bool)
    ensures r ==> |s| >= 2
  {
    DownloadWordsAreLong();
    MatchFrom(DownloadWords, s, 0)
  }

  /** No line terminator occurs in `s`. */
  predicate SingleLine(s: string) {
    forall i :: 0 <= i < |s| ==> !LineEnd(s, i)
  }

  /** The lower-cased string ends with `w`. */
  predicate EndsWithWord(s: string, w: string) {
    |w| <= |s| && LowerSeq(s[|s| - |w|..]) == w
  }

  /**
   * On a single-line string the pattern is a plain suffix test: the lower-cased
   * string ends with one of the words; nothing is required before the word.
   */
  lemma SingleLineMatchIsSuffixTest(words: seq<string>, s: string)
    requires SingleLine(s)
    ensures MatchFrom(words, s, 0) <==> exists k :: 0 <= k < |words| && EndsWithWord(s, words[k])
  {
    if MatchFrom(words, s, 0) {
      var q :| 0 <= q <= |s| && MatchStartsAt(words, s, q);
      var k := WordIndexAt(words, s, q, 0).value;
      var w := words[k];
      assert LineEnd(s, q + |w|);
      assert q + |w| == |s|;
      assert s[q..q + |w|] == s[|s| - |w|..];
      assert EndsWithWord(s, w);
    }
    if exists k :: 0 <= k < |words| && EndsWithWord(s, words[k]) {
      var k :| 0 <= k < |words| && EndsWithWord(s, words[k]);
      var q := |s| - |words[k]|;
      assert s[q..q + |words[k]|] == s[q..];
      assert WordMatchesAt(s, q, words[k]);
      assert MatchStartsAt(words, s, q);
    }
  }

  /** A single-line URL is a download exactly when, lower-cased, it ends with one of the 20 words. */
  lemma DownloadIsSuffixTest(s: string)
    requires SingleLine(s)
    ensures IsDownloadUrl(s) <==> exists k :: 0 <= k < |DownloadWords| && EndsWithWord(s, DownloadWords[k])
  {
    SingleLineMatchIsSuffixTest(DownloadWords, s);
  }

  /** No dot is needed before the word: a path ending in `nodejs` counts as a download. */
  lemma NoDotNeeded()
    ensures IsDownloadUrl("/NodeJS")
  {
    var s := "/NodeJS";
    assert SingleLine(s);
    assert LowerSeq(s[5..]) == "js" == DownloadWords[12];
    DownloadIsSuffixTest(s);
  }

  /** `q` is the leftmost position at or after `from` where a match starts. */
  predicate LeftmostMatch(words: seq<string>, s: string, from: nat, q: int) {
    from <= q <= |s| && MatchStartsAt(words, s, q) && forall p :: from <= p < q ==> !MatchStartsAt(words, s, p)
  }

  /** Where a match starting at `q` ends: after the first alternative that fits there. */
  function MatchEnd(words: seq<string>, s: string, q: int): (e: nat)
    requires MatchStartsAt(words, s, q)
    ensures q <= e <= |s| && LineEnd(s, e)
  {
    var k := WordIndexAt(words, s, q, 0).value;
    assert WordMatchesAt(s, q, words[k]);
    q + |words[k]|
  }

  /**
   * The pattern object. It carries the `g` flag, so `test` starts searching at
   * `lastIndex` and leaves `lastIndex` at the end of the match, or at 0 on failure.
   */
  class DownloadRegex {
    /** The alternatives of the pattern. */
    const words: seq<string>
    var lastIndex: nat

    constructor ()
      ensures words == DownloadWords && lastIndex == 0
    {
      words := DownloadWords;
      lastIndex := 0;
    }

    /** `RegExp.prototype.test` with the global flag. */
    method Test(s: string) returns (found: bool)
      modifies this
      ensures found <==> MatchFrom(words, s, old(lastIndex))
      ensures found ==> exists q :: LeftmostMatch(words, s, old(lastIndex), q) && lastIndex == MatchEnd(words, s, q)
      ensures !found ==> lastIndex == 0
    {
      var from := lastIndex;
      var q := from;
      while q <= |s|
        invariant from <= q
        invariant forall p :: from <= p < q ==> !MatchStartsAt(words, s, p)
        decreases |s| + 1 - q
      {
        if MatchStartsAt(words, s, q) {
          assert LeftmostMatch(words, s, from, q);
          assert MatchFrom(words, s, from);
          lastIndex := MatchEnd(words, s, q);
          return true;
        }
        q := q + 1;
      }
      assert !MatchFrom(words, s, from);
      lastIndex := 0;
      return false;
    }
  }

  /**
   * Why `lastIndex` must be reset: after a successful test of "a.pdf" it stands at 5,
   * and a second test of the same string from there fails.
   */
  lemma StaleLastIndexFlipsAnswer()
    ensures IsDownloadUrl("a.pdf")
    ensures !MatchFrom(DownloadWords, "a.pdf", 5)
  {
    var s := "a.pdf";
    assert WordMatchesAt(s, 2, DownloadWords[0]) by {
      assert s[2..5] == "pdf";
      assert LowerSeq("pdf") == "pdf";
    }
    assert MatchStartsAt(DownloadWords, s, 2);
    forall q | 5 <= q <= |s| ensures !MatchStartsAt(DownloadWords, s, q) {
      assert forall j :: 0 <= j < |DownloadWords| ==> |DownloadWords[j]| > 0;
    }
  }
}
