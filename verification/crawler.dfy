/**
 * The crawl job of src/worker.js: a worker owns the task queue, the result store and
 * the shared download pattern, seeds the queue in its constructor and drains it round
 * by round. Every method is proved to do what the scheduler functions of `CrawlSpec`
 * say, so the properties proved there hold of the worker.
 */
module Crawler {
  import opened Wrappers
  import opened Urls
  import opened Tasks
  import opened Pages
  import opened Robots
  import opened QueueService
  import opened LocalStorage
  import opened TaskService
  import opened Config
  import opened CrawlSpec

  class Worker {
    const url: string
    /** The configured `BATCH_SIZE`: the environment's value when set, otherwise `Config.BATCH_SIZE`. */
    const batchSize: int
    const codec: UrlCodec
    /** `pageCrawlService.crawlPage`, which always resolves with a page. */
    const fetch: string -> Page
    /** The robots policy, as `loadRobots` left it. */
    var robots: Policy
    const queue: TaskQueue
    const store: LocalStore
    const downloadRegex: DownloadRegex
    /** The URLs fetched so far, in order; bookkeeping for stating properties. */
    ghost var fetched: seq<string>

    /** Between operations the shared pattern is the download pattern and searches from the start. */
    ghost predicate Valid()
      reads this, downloadRegex
    {
      downloadRegex.words == DownloadWords && downloadRegex.lastIndex == 0
    }

    function Environment(): Env
      reads this
    {
      Env(codec, fetch, robots)
    }

    ghost function Snapshot(): State
      reads this, queue, store
    {
      State(queue.tasks, store.data, fetched)
    }

    /**
     * A fresh worker: empty store, no robots policy, and a queue holding the task made
     * from `url` with no parent, which is `null` when `url` does not parse or format.
     * `batchSizeFromEnv` is `BATCH_SIZE` from the environment as `splice` reads it
     * (`None` when unset or empty, so that `|| 25` applies).
     */
    constructor (url: string, batchSizeFromEnv: Option<int>, codec: UrlCodec, fetch: string -> Page)
      ensures Valid()
      ensures fresh(queue) && fresh(store) && fresh(downloadRegex)
      ensures this.url == url && this.batchSize == batchSizeFromEnv.GetOr(BATCH_SIZE) && this.codec == codec && this.fetch == fetch
      ensures robots == Unset
      ensures Snapshot() == State([CreateNewTask(codec, None, url)], map[], [])
    {
      this.url := url;
      this.batchSize := if batchSizeFromEnv.Some? then batchSizeFromEnv.value else BATCH_SIZE;
      this.codec := codec;
      this.fetch := fetch;
      robots := Unset;
      queue := new TaskQueue();
      store := new LocalStore();
      downloadRegex := new DownloadRegex();
      fetched := [];
      new;
      var firstTask := CreateNewTask(codec, None, url);
      queue.AddTask(firstTask);
    }

    /** `startCrawling`: installs the robots policy if one loaded, then crawls. */
    method StartCrawling(loaded: Policy, fuel: nat) returns (outcome: Outcome)
      requires Valid()
      modifies this, queue, store, downloadRegex
      ensures Valid()
      ensures robots == (if loaded.Loaded? then loaded else old(robots))
      ensures RunResult(Snapshot(), outcome) == Run(Environment(), old(Snapshot()), batchSize, fuel)
    {
      if loaded.Loaded? {
        robots := loaded;
      }
      outcome := Crawl(fuel);
    }

    /**
     * `crawl`, for at most `fuel` rounds: take a batch off the queue, resolve when it is
     * empty, crawl each of its pages, and call itself again unless the batch rejected.
     */
    method Crawl(fuel: nat) returns (outcome: Outcome)
      requires Valid()
      modifies this`fetched, queue, store, downloadRegex
      ensures Valid()
      ensures RunResult(Snapshot(), outcome) == Run(Environment(), old(Snapshot()), batchSize, fuel)
      decreases fuel
    {
      if fuel == 0 {
        return OutOfFuel;
      }
      ghost var before := Snapshot();
      ghost var k := TakeCount(batchSize, |before.queue|);
      RunRound(Environment(), before, batchSize, fuel);
      var taskBatch := queue.GetTasks(batchSize);
      assert Snapshot() == before.(queue := before.queue[k..]) && taskBatch == before.queue[..k];
      if |taskBatch| == 0 {
        assert before.queue[k..] == before.queue;
        return Finished;
      }
      var allOk := CrawlBatch(taskBatch);
      if !allOk {
        return Rejected;
      }
      outcome := Crawl(fuel - 1);
    }

    /**
     * `Promise.all(taskBatch.map(crawlPage))`: crawl every task of the batch, one after
     * another in batch order; the batch rejects when any of its tasks does.
     */
    method CrawlBatch(taskBatch: seq<Entry>) returns (allOk: bool)
      requires Valid()
      modifies this`fetched, queue, store, downloadRegex
      ensures Valid()
      ensures Step(Snapshot(), allOk) == ProcessBatch(Environment(), old(Snapshot()), taskBatch)
    {
      ghost var result := ProcessBatch(Environment(), Snapshot(), taskBatch);
      allOk := true;
      var j := 0;
      while j < |taskBatch|
        invariant 0 <= j <= |taskBatch|
        invariant Valid()
        invariant ProcessBatch(Environment(), Snapshot(), taskBatch[j..]).state == result.state
        invariant (allOk && ProcessBatch(Environment(), Snapshot(), taskBatch[j..]).ok) == result.ok
      {
        assert taskBatch[j..][1..] == taskBatch[j + 1..];
        var ok := CrawlPage(taskBatch[j]);
        allOk := allOk && ok;
        j := j + 1;
      }
      assert taskBatch[j..] == [];
    }

    /**
     * `crawlPage`: fetch, store the page under the task's URL, then queue its links; if
     * queuing throws, the stored page is replaced by the caught exception. A `null` task
     * rejects without touching anything.
     */
    method CrawlPage(entry: Entry) returns (ok: bool)
      requires Valid()
      modifies this`fetched, queue, store, downloadRegex
      ensures Valid()
      ensures Step(Snapshot(), ok) == ProcessEntry(Environment(), old(Snapshot()), entry)
    {
      if entry.None? {
        return false;
      }
      var task := entry.value;
      var pageResult := fetch(task.url);
      store.AddItem(task.url, StoredPage(ToObject(pageResult)));
      var threw := CreateNewTasks(task.url, pageResult.links);
      if threw {
        store.AddItem(task.url, StoredEmpty);
      }
      fetched := fetched + [task.url];
      ok := true;
    }

    /**
     * `createNewTasks`: turn each link into a task against `parentUrl` and queue it when
     * `validateTask` admits it against the queue as it stands; `threw` when a check threw,
     * which ends the loop.
     */
    method CreateNewTasks(parentUrl: string, links: seq<string>) returns (threw: bool)
      requires Valid()
      modifies queue, downloadRegex
      ensures Valid()
      ensures Expansion(queue.tasks, threw) == Expand(Environment(), store.data, old(queue.tasks), parentUrl, links)
    {
      var i := 0;
      while i < |links|
        invariant 0 <= i <= |links|
        invariant Valid()
        invariant Expand(Environment(), store.data, queue.tasks, parentUrl, links[i..]) ==
                  Expand(Environment(), store.data, old(queue.tasks), parentUrl, links)
      {
        assert links[i..][0] == links[i] && links[i..][1..] == links[i + 1..];
        var task := CreateNewTask(codec, Some(parentUrl), links[i]);
        if task.Some? {
          var admitted := ValidateTask(codec, robots, store, queue, downloadRegex, task.value, parentUrl);
          if admitted.None? {
            return true;
          }
          if admitted.value {
            queue.AddTask(task);
          }
        }
        i := i + 1;
      }
      assert links[i..] == [];
      return false;
    }
  }
}
