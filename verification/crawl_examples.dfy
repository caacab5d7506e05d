/**
 * A concrete crawl showing that with more than one task per round a URL can be
 * fetched twice: a task dequeued in a batch is neither stored nor queued while its
 * siblings expand their links, so a sibling can queue it again.
 */
module CrawlExamples {
  import opened Wrappers
  import opened Urls
  import opened Tasks
  import opened Pages
  import opened Config
  import opened Robots
  import opened LocalStorage
  import opened TaskService
  import opened CrawlSpec

  /** Every string parses to a URL on host `h` whose path is the string; formatting gives the path back. */
  function OneHostCodec(): UrlCodec {
    UrlCodec((s: string) => Some(Url("http:", Some("h"), Some("h"), s, "", "")), (u: Url) => Some(u.pathname))
  }

  /** Page `a` links to `b` and `c`, page `b` links to `c`, every other page has no links. */
  function SiblingFetch(): string -> Page {
    (u: string) => Page(None, u, Some(200), None, if u == "a" then ["b", "c"] else if u == "b" then ["c"] else [], None)
  }

  function SiblingEnv(): Env {
    Env(OneHostCodec(), SiblingFetch(), Unset)
  }

  /** The patterns' words are all at least two characters long, so a one-character URL is no download. */
  lemma OneCharNotDownload(s: string)
    requires |s| == 1
    ensures !IsDownloadUrl(s)
  {
    DownloadWordsAreLong();
    forall q | 0 <= q <= |s| ensures !MatchStartsAt(DownloadWords, s, q) {
      assert forall j :: 0 <= j < |DownloadWords| ==> !WordMatchesAt(s, q, DownloadWords[j]);
    }
  }

  function PageA(): Page { SiblingFetch()("a") }
  function PageB(): Page { SiblingFetch()("b") }
  function PageC(): Page { SiblingFetch()("c") }

  /** After round 1: `a` stored and fetched, `b` and `c` queued. */
  function AfterRound1(): State {
    State([Some(Task("b")), Some(Task("c"))], map["a" := StoredPage(ToObject(PageA()))], ["a"])
  }

  /** After round 2: `b` and `c` stored and fetched, and `c` queued again by `b`. */
  function AfterRound2(): State {
    State([Some(Task("c"))],
          map["a" := StoredPage(ToObject(PageA())), "b" := StoredPage(ToObject(PageB())),
              "c" := StoredPage(ToObject(PageC()))],
          ["a", "b", "c"])
  }

  /** After round 3: `c` fetched a second time, nothing queued. */
  function AfterRound3(): State {
    AfterRound2().(queue := [], fetched := ["a", "b", "c", "c"])
  }

  /** Link `c` found on a page of `h` is admitted while it is neither stored nor queued. */
  lemma AdmitC(store: map<string, Stored>, parentUrl: string)
    requires "c" !in store && parentUrl != ""
    ensures Expand(SiblingEnv(), store, [], parentUrl, ["c"]) == Expansion([Some(Task("c"))], false)
  {
    OneCharNotDownload("c");
    assert ["c"][1..] == [];
  }

  lemma Round1()
    ensures Run(SiblingEnv(), SeedState(Task("a")), 2, 4) == Run(SiblingEnv(), AfterRound1(), 2, 3)
  {
    var env, s0 := SiblingEnv(), SeedState(Task("a"));
    var st1 := map["a" := StoredPage(ToObject(PageA()))];
    OneCharNotDownload("b");
    OneCharNotDownload("c");
    assert PageA().links == ["b", "c"];
    assert Expand(env, st1, [], "a", ["b", "c"]) == Expansion([Some(Task("b")), Some(Task("c"))], false) by {
      assert ["b", "c"][1..] == ["c"] && ["c"][1..] == [];
      assert CreateNewTask(env.codec, Some("a"), "b") == Some(Task("b"));
      assert Admission(env.codec, env.policy, st1, [], Task("b"), "a") == Some(true);
      assert [] + [Some(Task("b"))] == [Some(Task("b"))];
      assert QueueService.Find([Some(Task("b"))], "c") == QueueService.NotFound by {
        assert [Some(Task("b"))][1..] == [];
      }
    }
    assert ProcessEntry(env, s0.(queue := []), Some(Task("a"))) == Step(AfterRound1(), true);
    assert [Some(Task("a"))][1..] == [];
    assert ProcessBatch(env, s0.(queue := []), [Some(Task("a"))]) == Step(AfterRound1(), true);
    assert s0.queue[..1] == [Some(Task("a"))] && s0.queue[1..] == [];
  }

  lemma Round2()
    ensures Run(SiblingEnv(), AfterRound1(), 2, 3) == Run(SiblingEnv(), AfterRound2(), 2, 2)
  {
    var env, s1 := SiblingEnv(), AfterRound1();
    var st2 := s1.store["b" := StoredPage(ToObject(PageB()))];
    assert PageB().links == ["c"] && PageC().links == [];
    AdmitC(st2, "b");
    var s2 := State([Some(Task("c"))], st2, ["a", "b"]);
    assert ProcessEntry(env, s1.(queue := []), Some(Task("b"))) == Step(s2, true);
    assert ProcessEntry(env, s2, Some(Task("c"))) == Step(AfterRound2(), true);
    var batch := [Some(Task("b")), Some(Task("c"))];
    assert batch[1..] == [Some(Task("c"))] && [Some(Task("c"))][1..] == [];
    assert ProcessBatch(env, s2, [Some(Task("c"))]) == Step(AfterRound2(), true);
    assert ProcessBatch(env, s1.(queue := []), batch) == Step(AfterRound2(), true);
    assert s1.queue[..2] == batch && s1.queue[2..] == [];
  }

  lemma Round3()
    ensures Run(SiblingEnv(), AfterRound2(), 2, 2) == RunResult(AfterRound3(), Finished)
  {
    var env, s3 := SiblingEnv(), AfterRound2();
    assert PageC().links == [];
    assert ProcessEntry(env, s3.(queue := []), Some(Task("c"))) == Step(AfterRound3(), true);
    assert [Some(Task("c"))][1..] == [];
    assert ProcessBatch(env, s3.(queue := []), [Some(Task("c"))]) == Step(AfterRound3(), true);
    assert s3.queue[..1] == [Some(Task("c"))] && s3.queue[1..] == [];
    assert Run(env, AfterRound3(), 2, 1) == RunResult(AfterRound3(), Finished);
  }

  /**
   * Batches of two: `a` is fetched, queuing `b` and `c`; while `b` of the batch `[b, c]`
   * expands, `c` is neither stored nor queued, so it is queued again and fetched a second time.
   */
  lemma SiblingLinkRefetched()
    ensures Run(SiblingEnv(), SeedState(Task("a")), 2, 4).outcome == Finished
    ensures Run(SiblingEnv(), SeedState(Task("a")), 2, 4).state.fetched == ["a", "b", "c", "c"]
    ensures !DistinctSeq(Run(SiblingEnv(), SeedState(Task("a")), 2, 4).state.fetched)
  {
    Round1();
    Round2();
    Round3();
    assert AfterRound3().fetched[2] == AfterRound3().fetched[3];
  }
}
