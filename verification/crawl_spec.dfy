/**
 * The scheduler of src/worker.js as functions over values. A round takes up to
 * `batchSize` tasks off the front of the queue and processes them one after
 * another in batch order, which is one interleaving of the source's
 * `Promise.all` (queue and store are only touched between suspension points).
 * The `Crawler.Worker` class runs these steps in place and is proved equal to them.
 */
module CrawlSpec {
  import opened Wrappers
  import opened Urls
  import opened Tasks
  import opened Pages
  import opened Config
  import opened Robots
  import opened QueueService
  import opened LocalStorage
  import opened TaskService

  /** The world outside the crawler: URL parsing/formatting, the page fetcher, the loaded robots policy. */
  datatype Env = Env(codec: UrlCodec, fetch: string -> Page, policy: Policy)

  /** Queue and store contents, and the URLs fetched so far in fetch order (kept for stating properties). */
  datatype State = State(queue: seq<Entry>, store: map<string, Stored>, fetched: seq<string>)

  /** What `createNewTasks` leaves behind: the new queue, and whether a check threw part-way. */
  datatype Expansion = Expansion(queue: seq<Entry>, threw: bool)

  /** The state after one step, and `false` when the step rejected (threw out of `crawlPage`). */
  datatype Step = Step(state: State, ok: bool)

  /** How a crawl ends: the queue drained, a batch rejected, or the round budget ran out. */
  datatype Outcome = Finished | Rejected | OutOfFuel

  datatype RunResult = RunResult(state: State, outcome: Outcome)

  /**
   * `createNewTasks`: each link, in order, becomes a task against the parent; a task is
   * appended when `validateTask` holds against the queue as it stands at that moment.
   * A throwing check ends the loop with the tasks appended so far.
   */
  function Expand(env: Env, store: map<string, Stored>, queue: seq<Entry>, parentUrl: string,
                  links: seq<string>): (r: Expansion)
    ensures |queue| <= |r.queue| <= |queue| + |links|
    decreases |links|
  {
    if links == [] then Expansion(queue, false)
    else match CreateNewTask(env.codec, Some(parentUrl), links[0])
      case None => Expand(env, store, queue, parentUrl, links[1..])
      case Some(task) =>
        match Admission(env.codec, env.policy, store, queue, task, parentUrl)
        case None => Expansion(queue, true)
        case Some(ok) => Expand(env, store, if ok then queue + [Some(task)] else queue, parentUrl, links[1..])
  }

  /**
   * `crawlPage`: fetch, store the result under the task's URL, then expand its links.
   * If expanding throws, the catch stores the exception, which the store keeps as `{}`.
   * A `null` task throws before anything is stored.
   */
  function ProcessEntry(env: Env, st: State, entry: Entry): (r: Step)
    ensures r.ok <==> entry.Some?
    ensures st.store.Keys <= r.state.store.Keys && st.fetched <= r.state.fetched
    ensures entry.Some? ==> |r.state.queue| <= |st.queue| + |env.fetch(entry.value.url).links|
  {
    match entry
    case None => Step(st, false)
    case Some(task) =>
      var page := env.fetch(task.url);
      var stored := st.store[task.url := StoredPage(ToObject(page))];
      var ex := Expand(env, stored, st.queue, task.url, page.links);
      var finalStore := if ex.threw then stored[task.url := StoredEmpty] else stored;
      Step(State(ex.queue, finalStore, st.fetched + [task.url]), true)
  }

  /** The members of one batch, processed in batch order; the batch rejects if any member does. */
  function ProcessBatch(env: Env, st: State, batch: seq<Entry>): (r: Step)
    ensures st.store.Keys <= r.state.store.Keys && st.fetched <= r.state.fetched
    decreases |batch|
  {
    if batch == [] then Step(st, true)
    else
      var first := ProcessEntry(env, st, batch[0]);
      var rest := ProcessBatch(env, first.state, batch[1..]);
      Step(rest.state, first.ok && rest.ok)
  }

  /**
   * `crawl`, for at most `fuel` rounds: dequeue `getTasks(batchSize)`; an empty batch
   * ends the crawl, otherwise the batch is processed and the next round begins.
   */
  function Run(env: Env, st: State, batchSize: int, fuel: nat): (r: RunResult)
    ensures st.store.Keys <= r.state.store.Keys && st.fetched <= r.state.fetched
    ensures batchSize < 1 && fuel > 0 ==> r == RunResult(st, Finished)
    decreases fuel
  {
    if fuel == 0 then RunResult(st, OutOfFuel)
    else
      var k := TakeCount(batchSize, |st.queue|);
      if k == 0 then RunResult(st, Finished)
      else
        var b := ProcessBatch(env, st.(queue := st.queue[k..]), st.queue[..k]);
        if !b.ok then RunResult(b.state, Rejected)
        else Run(env, b.state, batchSize, fuel - 1)
  }

  // ---------------------------------------------------------------------------
  // Invariants

  /** No `null` slot, and no URL queued twice. */
  predicate UniqueTasks(q: seq<Entry>) {
    NoNull(q) && forall i, j :: 0 <= i < j < |q| ==> q[i].value.url != q[j].value.url
  }

  /** No queued URL has a stored result. */
  predicate DisjointFromStore(q: seq<Entry>, store: map<string, Stored>) {
    forall i :: 0 <= i < |q| && q[i].Some? ==> q[i].value.url !in store
  }

  predicate DistinctSeq(s: seq<string>) {
    forall i, j :: 0 <= i < j < |s| ==> s[i] != s[j]
  }

  /** The facts that, with one task per round, rule out fetching a URL twice. */
  predicate NoRevisitInvariant(st: State) {
    && UniqueTasks(st.queue)
    && DisjointFromStore(st.queue, st.store)
    && (forall i :: 0 <= i < |st.fetched| ==> st.fetched[i] in st.store)
    && DistinctSeq(st.fetched)
  }

  /** All five checks of `validateTask`, as a fact about a task checked against `queue`. */
  predicate Admitted(env: Env, store: map<string, Stored>, queue: seq<Entry>, parentUrl: string, t: Task) {
    && t.url !in store
    && t.url !in QueueUrls(queue)
    && EnsureSameDomain(env.codec, Text(t.url), Text(parentUrl)) == Some(true)
    && !IsDownloadUrl(t.url)
    && IsUrlAllowed(env.policy, t.url)
  }

  /** The URLs of the tasks of a batch, in batch order. */
  function BatchUrls(batch: seq<Entry>): (urls: seq<string>)
    ensures |urls| <= |batch|
    ensures NoNull(batch) ==> |urls| == |batch|
  {
    if batch == [] then []
    else (if batch[0].Some? then [batch[0].value.url] else []) + BatchUrls(batch[1..])
  }

  // ---------------------------------------------------------------------------
  // createNewTasks

  /** `createNewTasks` only appends: the old queue is a prefix of the new one. */
  lemma {:induction false} ExpandKeepsPrefix(env: Env, store: map<string, Stored>, queue: seq<Entry>,
                                             parentUrl: string, links: seq<string>)
    ensures var r := Expand(env, store, queue, parentUrl, links).queue;
      |queue| <= |r| && r[..|queue|] == queue
    decreases |links|
  {
    if links != [] {
      match CreateNewTask(env.codec, Some(parentUrl), links[0])
      case None =>
        ExpandKeepsPrefix(env, store, queue, parentUrl, links[1..]);
      case Some(task) =>
        match Admission(env.codec, env.policy, store, queue, task, parentUrl)
        case None =>
        case Some(ok) =>
          var q1 := if ok then queue + [Some(task)] else queue;
          ExpandKeepsPrefix(env, store, q1, parentUrl, links[1..]);
          var r := Expand(env, store, queue, parentUrl, links).queue;
          assert r[..|queue|] == r[..|q1|][..|queue|];
          assert q1[..|queue|] == queue;
    }
  }

  /** A task that `validateTask` admits against `queue` satisfies all five checks against it. */
  lemma AdmittedWhenAdmission(env: Env, store: map<string, Stored>, queue: seq<Entry>, task: Task, parentUrl: string)
    requires Admission(env.codec, env.policy, store, queue, task, parentUrl) == Some(true)
    ensures Admitted(env, store, queue, parentUrl, task)
  {
    assert Find(queue, task.url) == NotFound;
  }

  /** Every slot of `r` past the old queue holds a task that passed the five checks against the slots before it. */
  predicate AppendsAdmitted(env: Env, store: map<string, Stored>, queue: seq<Entry>, parentUrl: string, r: seq<Entry>) {
    forall i :: |queue| <= i < |r| ==> r[i].Some? && Admitted(env, store, r[..i], parentUrl, r[i].value)
  }

  /**
   * Every slot `createNewTasks` appends is a task that passed all five checks, the
   * not-queued check against the queue as it stood when that task was checked.
   */
  lemma {:induction false} ExpandAppendsAdmitted(env: Env, store: map<string, Stored>, queue: seq<Entry>,
                                                 parentUrl: string, links: seq<string>)
    ensures AppendsAdmitted(env, store, queue, parentUrl, Expand(env, store, queue, parentUrl, links).queue)
    decreases |links|
  {
    if links != [] {
      var r := Expand(env, store, queue, parentUrl, links).queue;
      match CreateNewTask(env.codec, Some(parentUrl), links[0])
      case None =>
        assert r == Expand(env, store, queue, parentUrl, links[1..]).queue;
        ExpandAppendsAdmitted(env, store, queue, parentUrl, links[1..]);
      case Some(task) =>
        match Admission(env.codec, env.policy, store, queue, task, parentUrl)
        case None =>
          assert r == queue;
        case Some(ok) =>
          var q1 := if ok then queue + [Some(task)] else queue;
          assert r == Expand(env, store, q1, parentUrl, links[1..]).queue;
          ExpandAppendsAdmitted(env, store, q1, parentUrl, links[1..]);
          if ok {
            ExpandKeepsPrefix(env, store, q1, parentUrl, links[1..]);
            AdmittedWhenAdmission(env, store, queue, task, parentUrl);
            forall i | |queue| <= i < |r| ensures r[i].Some? && Admitted(env, store, r[..i], parentUrl, r[i].value) {
              if i == |queue| {
                assert r[i] == q1[i] == Some(task);
                assert r[..i] == r[..|q1|][..|queue|] == queue;
              }
            }
          }
    }
  }

  /** `e` is the task that `createNewTask` makes from one of `links` against the parent. */
  predicate FromLinks(env: Env, parentUrl: string, links: seq<string>, e: Entry) {
    exists k :: 0 <= k < |links| && CreateNewTask(env.codec, Some(parentUrl), links[k]) == e
  }

  /** Every slot of `r` past the old queue is made from one of `links`. */
  predicate AllFromLinks(env: Env, parentUrl: string, links: seq<string>, queue: seq<Entry>, r: seq<Entry>) {
    forall i :: |queue| <= i < |r| ==> FromLinks(env, parentUrl, links, r[i])
  }

  /** Every slot `createNewTasks` appends is the task made from one of the links. */
  lemma {:induction false} ExpandTasksComeFromLinks(env: Env, store: map<string, Stored>, queue: seq<Entry>,
                                                    parentUrl: string, links: seq<string>)
    ensures AllFromLinks(env, parentUrl, links, queue, Expand(env, store, queue, parentUrl, links).queue)
    decreases |links|
  {
    if links != [] {
      var r := Expand(env, store, queue, parentUrl, links).queue;
      match CreateNewTask(env.codec, Some(parentUrl), links[0])
      case None =>
        assert r == Expand(env, store, queue, parentUrl, links[1..]).queue;
        ExpandTasksComeFromLinks(env, store, queue, parentUrl, links[1..]);
        forall i | |queue| <= i < |r| ensures FromLinks(env, parentUrl, links, r[i]) {
          FromTailLink(env, parentUrl, links, r[i]);
        }
      case Some(task) =>
        match Admission(env.codec, env.policy, store, queue, task, parentUrl)
        case None =>
          assert r == queue;
        case Some(ok) =>
          var q1 := if ok then queue + [Some(task)] else queue;
          assert r == Expand(env, store, q1, parentUrl, links[1..]).queue;
          ExpandTasksComeFromLinks(env, store, q1, parentUrl, links[1..]);
          ExpandKeepsPrefix(env, store, q1, parentUrl, links[1..]);
          forall i | |queue| <= i < |r| ensures FromLinks(env, parentUrl, links, r[i]) {
            if i < |q1| {
              assert r[i] == q1[i] == Some(task);
              assert CreateNewTask(env.codec, Some(parentUrl), links[0]) == r[i];
            } else {
              FromTailLink(env, parentUrl, links, r[i]);
            }
          }
    }
  }

  /** A task made from a link of `links[1..]` is made from a link of `links`. */
  lemma FromTailLink(env: Env, parentUrl: string, links: seq<string>, e: Entry)
    requires links != [] && FromLinks(env, parentUrl, links[1..], e)
    ensures FromLinks(env, parentUrl, links, e)
  {
    var k :| 0 <= k < |links[1..]| && CreateNewTask(env.codec, Some(parentUrl), links[1..][k]) == e;
    assert links[1..][k] == links[k + 1];
  }

  /**
   * One link appends nothing or exactly its own task, and a throw leaves the queue
   * as it was.
   */
  lemma ExpandOneLink(env: Env, store: map<string, Stored>, queue: seq<Entry>, parentUrl: string, link: string)
    ensures var e := Expand(env, store, queue, parentUrl, [link]);
      || e.queue == queue
      || (CreateNewTask(env.codec, Some(parentUrl), link).Some?
          && e.queue == queue + [CreateNewTask(env.codec, Some(parentUrl), link)])
    ensures Expand(env, store, queue, parentUrl, [link]).threw ==>
      Expand(env, store, queue, parentUrl, [link]).queue == queue
  {
    assert [link][1..] == [];
  }

  /**
   * The links are handled one after another in list order: expanding `l1 + l2` is
   * expanding `l1` and then, unless that threw, `l2` against the queue it left.
   */
  lemma {:induction false} ExpandComposes(env: Env, store: map<string, Stored>, queue: seq<Entry>,
                                          parentUrl: string, l1: seq<string>, l2: seq<string>)
    ensures var e1 := Expand(env, store, queue, parentUrl, l1);
      Expand(env, store, queue, parentUrl, l1 + l2) ==
        (if e1.threw then e1 else Expand(env, store, e1.queue, parentUrl, l2))
    decreases |l1|
  {
    if l1 == [] {
      assert l1 + l2 == l2;
    } else {
      assert (l1 + l2)[0] == l1[0];
      assert (l1 + l2)[1..] == l1[1..] + l2;
      match CreateNewTask(env.codec, Some(parentUrl), l1[0])
      case None =>
        ExpandComposes(env, store, queue, parentUrl, l1[1..], l2);
      case Some(task) =>
        match Admission(env.codec, env.policy, store, queue, task, parentUrl)
        case None =>
        case Some(ok) =>
          var q1 := if ok then queue + [Some(task)] else queue;
          ExpandComposes(env, store, q1, parentUrl, l1[1..], l2);
    }
  }

  /** A queue that is a prefix of another has no URL the other lacks. */
  lemma PrefixKeepsUrls(q: seq<Entry>, r: seq<Entry>)
    requires |q| <= |r| && r[..|q|] == q
    ensures QueueUrls(q) <= QueueUrls(r)
  {
    forall u | u in QueueUrls(q) ensures u in QueueUrls(r) {
      var i :| 0 <= i < |q| && q[i].Some? && q[i].value.url == u;
      assert r[i] == q[i];
    }
  }

  /**
   * The converse: when `createNewTasks` runs to the end, a link whose task is not stored,
   * on the parent's domain, not a download and allowed by robots is queued afterwards,
   * either by this call or because it was queued already.
   */
  lemma {:induction false} ExpandQueuesEveryAdmissible(env: Env, store: map<string, Stored>, queue: seq<Entry>,
                                                       parentUrl: string, links: seq<string>, k: nat, t: Task)
    requires k < |links| && CreateNewTask(env.codec, Some(parentUrl), links[k]) == Some(t)
    requires t.url !in store && EnsureSameDomain(env.codec, Text(t.url), Text(parentUrl)) == Some(true)
    requires !IsDownloadUrl(t.url) && IsUrlAllowed(env.policy, t.url)
    requires !Expand(env, store, queue, parentUrl, links).threw
    ensures t.url in QueueUrls(Expand(env, store, queue, parentUrl, links).queue)
    decreases k
  {
    var tail := links[1..];
    if k == 0 {
      match Admission(env.codec, env.policy, store, queue, t, parentUrl)
      case None =>
        assert false;
      case Some(ok) =>
        var q1 := if ok then queue + [Some(t)] else queue;
        assert t.url in QueueUrls(q1) by {
          if Find(queue, t.url).Found? {
            assert q1[..|queue|] == queue;
            PrefixKeepsUrls(queue, q1);
          } else {
            assert Find(queue, t.url) == NotFound;
            assert q1[|queue|] == Some(t);
          }
        }
        ExpandKeepsPrefix(env, store, q1, parentUrl, tail);
        PrefixKeepsUrls(q1, Expand(env, store, q1, parentUrl, tail).queue);
    } else {
      assert tail[k - 1] == links[k];
      match CreateNewTask(env.codec, Some(parentUrl), links[0])
      case None =>
        ExpandQueuesEveryAdmissible(env, store, queue, parentUrl, tail, k - 1, t);
      case Some(task) =>
        match Admission(env.codec, env.policy, store, queue, task, parentUrl)
        case None =>
          assert false;
        case Some(ok) =>
          var q1 := if ok then queue + [Some(task)] else queue;
          ExpandQueuesEveryAdmissible(env, store, q1, parentUrl, tail, k - 1, t);
    }
  }

  /** Appending a task whose URL is not queued keeps the queue free of duplicates. */
  lemma AppendUnique(q: seq<Entry>, t: Task)
    requires UniqueTasks(q) && t.url !in QueueUrls(q)
    ensures UniqueTasks(q + [Some(t)])
  {
    var q1 := q + [Some(t)];
    forall i, j | 0 <= i < j < |q1| ensures q1[i].value.url != q1[j].value.url {
      if j == |q| {
        assert q1[i] == q[i];
        assert q[i].value.url in QueueUrls(q);
      }
    }
  }

  /** `createNewTasks` never queues a URL twice: the not-in-queue check sees every earlier append. */
  lemma {:induction false} ExpandKeepsUnique(env: Env, store: map<string, Stored>, queue: seq<Entry>,
                                             parentUrl: string, links: seq<string>)
    requires UniqueTasks(queue)
    ensures UniqueTasks(Expand(env, store, queue, parentUrl, links).queue)
    decreases |links|
  {
    if links != [] {
      match CreateNewTask(env.codec, Some(parentUrl), links[0])
      case None =>
        ExpandKeepsUnique(env, store, queue, parentUrl, links[1..]);
      case Some(task) =>
        match Admission(env.codec, env.policy, store, queue, task, parentUrl)
        case None =>
        case Some(ok) =>
          if ok {
            FindWithoutNull(queue, task.url);
            AppendUnique(queue, task);
            ExpandKeepsUnique(env, store, queue + [Some(task)], parentUrl, links[1..]);
          } else {
            ExpandKeepsUnique(env, store, queue, parentUrl, links[1..]);
          }
    }
  }

  /** `createNewTasks` keeps "no queued URL is stored" (the store does not change meanwhile). */
  lemma ExpandKeepsDisjoint(env: Env, store: map<string, Stored>, queue: seq<Entry>,
                            parentUrl: string, links: seq<string>)
    requires DisjointFromStore(queue, store)
    ensures DisjointFromStore(Expand(env, store, queue, parentUrl, links).queue, store)
  {
    ExpandAppendsAdmitted(env, store, queue, parentUrl, links);
    ExpandKeepsPrefix(env, store, queue, parentUrl, links);
    var r := Expand(env, store, queue, parentUrl, links).queue;
    forall i | 0 <= i < |r| && r[i].Some? ensures r[i].value.url !in store {
      if i < |queue| { assert r[i] == queue[i]; }
    }
  }

  // ---------------------------------------------------------------------------
  // crawlPage

  /**
   * `crawlPage` writes its task's URL into the store whatever the fetch returned,
   * records one fetch, leaves every other stored value alone, and, because the result
   * is stored before the links are expanded, never queues its own URL again.
   */
  lemma EntryStoresItsResult(env: Env, st: State, t: Task)
    ensures var s := ProcessEntry(env, st, Some(t));
      && s.ok
      && s.state.store.Keys == st.store.Keys + {t.url}
      && s.state.store[t.url] in {StoredPage(ToObject(env.fetch(t.url))), StoredEmpty}
      && (forall k :: k in st.store && k != t.url ==> s.state.store[k] == st.store[k])
      && s.state.fetched == st.fetched + [t.url]
      && |st.queue| <= |s.state.queue| && s.state.queue[..|st.queue|] == st.queue
      && forall i :: |st.queue| <= i < |s.state.queue| ==>
           s.state.queue[i].Some? && s.state.queue[i].value.url != t.url
  {
    var page := env.fetch(t.url);
    var stored := st.store[t.url := StoredPage(ToObject(page))];
    ExpandAppendsAdmitted(env, stored, st.queue, t.url, page.links);
    ExpandKeepsPrefix(env, stored, st.queue, t.url, page.links);
  }

  /** A `null` task rejects and changes nothing. */
  lemma NullEntryRejects(env: Env, st: State)
    ensures ProcessEntry(env, st, None) == Step(st, false)
  {
  }

  /** `crawlPage` never queues a URL twice. */
  lemma EntryKeepsUnique(env: Env, st: State, entry: Entry)
    requires UniqueTasks(st.queue)
    ensures UniqueTasks(ProcessEntry(env, st, entry).state.queue)
  {
    if entry.Some? {
      var t := entry.value;
      var page := env.fetch(t.url);
      ExpandKeepsUnique(env, st.store[t.url := StoredPage(ToObject(page))], st.queue, t.url, page.links);
    }
  }

  /**
   * Processing a task that is neither stored nor still queued keeps the no-revisit
   * invariant: the fetched URL is new, and what it queues is new as well.
   */
  lemma EntryKeepsNoRevisit(env: Env, st: State, t: Task)
    requires NoRevisitInvariant(st)
    requires t.url !in st.store && t.url !in QueueUrls(st.queue)
    ensures NoRevisitInvariant(ProcessEntry(env, st, Some(t)).state)
  {
    var page := env.fetch(t.url);
    var stored := st.store[t.url := StoredPage(ToObject(page))];
    forall i | 0 <= i < |st.queue| && st.queue[i].Some? ensures st.queue[i].value.url !in stored {
      assert st.queue[i].value.url in QueueUrls(st.queue);
    }
    ExpandKeepsUnique(env, stored, st.queue, t.url, page.links);
    ExpandKeepsDisjoint(env, stored, st.queue, t.url, page.links);
    var s := ProcessEntry(env, st, Some(t)).state;
    assert s.store.Keys == stored.Keys;
    forall i, j | 0 <= i < j < |s.fetched| ensures s.fetched[i] != s.fetched[j] {
      if j == |st.fetched| {
        assert st.fetched[i] in st.store;
      }
    }
  }

  // ---------------------------------------------------------------------------
  // One batch

  /** A batch rejects exactly when it holds a `null` slot. */
  lemma {:induction false} BatchRejectsOnNull(env: Env, st: State, batch: seq<Entry>)
    ensures ProcessBatch(env, st, batch).ok <==> NoNull(batch)
    decreases |batch|
  {
    if batch != [] {
      var rest := batch[1..];
      BatchRejectsOnNull(env, ProcessEntry(env, st, batch[0]).state, rest);
      assert NoNull(batch) <==> batch[0].Some? && NoNull(rest) by {
        if batch[0].Some? && NoNull(rest) {
          forall i | 0 <= i < |batch| ensures batch[i].Some? {
            if i > 0 { assert batch[i] == rest[i - 1]; }
          }
        } else if !batch[0].Some? {
        } else {
          var i :| 0 <= i < |rest| && !rest[i].Some?;
          assert batch[i + 1] == rest[i];
        }
      }
    }
  }

  /** One step records its task's URL as fetched and as a store key; a `null` step records nothing. */
  lemma EntryRecordsItsUrl(env: Env, st: State, entry: Entry)
    ensures ProcessEntry(env, st, entry).state.fetched == st.fetched + BatchUrls([entry])
    ensures ProcessEntry(env, st, entry).state.store.Keys == st.store.Keys + (set u | u in BatchUrls([entry]))
  {
    assert [entry][1..] == [];
    assert BatchUrls([entry]) == if entry.Some? then [entry.value.url] else [];
  }

  /** Every task of a batch is fetched once, in batch order, whatever happens to its siblings. */
  lemma {:induction false} BatchFetchesEveryTask(env: Env, st: State, batch: seq<Entry>)
    ensures ProcessBatch(env, st, batch).state.fetched == st.fetched + BatchUrls(batch)
    decreases |batch|
  {
    if batch != [] {
      var first := ProcessEntry(env, st, batch[0]);
      var own := BatchUrls([batch[0]]);
      BatchFetchesEveryTask(env, first.state, batch[1..]);
      EntryRecordsItsUrl(env, st, batch[0]);
      assert BatchUrls(batch) == own + BatchUrls(batch[1..]) by {
        assert [batch[0]][1..] == [];
      }
      calc {
        ProcessBatch(env, st, batch).state.fetched;
        ProcessBatch(env, first.state, batch[1..]).state.fetched;
        (st.fetched + own) + BatchUrls(batch[1..]);
        st.fetched + BatchUrls(batch);
      }
    }
  }

  /** Every task of a batch gets a result stored under its own URL, whatever happens to its siblings. */
  lemma {:induction false} BatchStoresEveryTask(env: Env, st: State, batch: seq<Entry>)
    ensures ProcessBatch(env, st, batch).state.store.Keys == st.store.Keys + (set u | u in BatchUrls(batch))
    decreases |batch|
  {
    if batch != [] {
      var first := ProcessEntry(env, st, batch[0]);
      BatchStoresEveryTask(env, first.state, batch[1..]);
      EntryRecordsItsUrl(env, st, batch[0]);
      var head, tail := BatchUrls([batch[0]]), BatchUrls(batch[1..]);
      assert BatchUrls(batch) == head + tail by {
        assert [batch[0]][1..] == [];
      }
      assert (set u | u in head + tail) == (set u | u in head) + (set u | u in tail);
    }
  }

  /** A batch never leaves a URL queued twice. */
  lemma {:induction false} BatchKeepsUnique(env: Env, st: State, batch: seq<Entry>)
    requires UniqueTasks(st.queue)
    ensures UniqueTasks(ProcessBatch(env, st, batch).state.queue)
    decreases |batch|
  {
    if batch != [] {
      EntryKeepsUnique(env, st, batch[0]);
      BatchKeepsUnique(env, ProcessEntry(env, st, batch[0]).state, batch[1..]);
    }
  }

  // ---------------------------------------------------------------------------
  // The whole crawl

  /** Dropping tasks from the front keeps the queue free of duplicates. */
  lemma SuffixUnique(q: seq<Entry>, k: nat)
    requires UniqueTasks(q) && k <= |q|
    ensures UniqueTasks(q[k..])
  {
    forall i, j | 0 <= i < j < |q[k..]| ensures q[k..][i].value.url != q[k..][j].value.url {
      assert q[k..][i] == q[k + i] && q[k..][j] == q[k + j];
    }
  }

  /** One round of `crawl`: an empty batch finishes, a rejecting batch stops, otherwise the next round runs. */
  lemma RunRound(env: Env, st: State, batchSize: int, fuel: nat)
    requires fuel > 0
    ensures var k := TakeCount(batchSize, |st.queue|);
      Run(env, st, batchSize, fuel) ==
        if k == 0 then RunResult(st, Finished)
        else
          var b := ProcessBatch(env, st.(queue := st.queue[k..]), st.queue[..k]);
          if !b.ok then RunResult(b.state, Rejected) else Run(env, b.state, batchSize, fuel - 1)
  {
  }

  /**
   * With any batch size, a crawl that starts with a duplicate-free queue keeps it
   * duplicate-free and never rejects.
   */
  lemma {:induction false} RunKeepsUnique(env: Env, st: State, batchSize: int, fuel: nat)
    requires UniqueTasks(st.queue)
    ensures UniqueTasks(Run(env, st, batchSize, fuel).state.queue)
    ensures Run(env, st, batchSize, fuel).outcome != Rejected
    decreases fuel
  {
    if fuel > 0 {
      RunRound(env, st, batchSize, fuel);
      var k := TakeCount(batchSize, |st.queue|);
      if k > 0 {
        SuffixUnique(st.queue, k);
        var st1 := st.(queue := st.queue[k..]);
        var batch := st.queue[..k];
        BatchKeepsUnique(env, st1, batch);
        BatchRejectsOnNull(env, st1, batch);
        assert NoNull(batch) by {
          forall i | 0 <= i < |batch| ensures batch[i].Some? { assert batch[i] == st.queue[i]; }
        }
        RunKeepsUnique(env, ProcessBatch(env, st1, batch).state, batchSize, fuel - 1);
      }
    }
  }

  /** With a positive batch size, the crawl finishes only on an empty queue, and an empty queue finishes it at once. */
  lemma {:induction false} FinishedMeansDrained(env: Env, st: State, batchSize: int, fuel: nat)
    requires batchSize >= 1
    ensures Run(env, st, batchSize, fuel).outcome == Finished ==> Run(env, st, batchSize, fuel).state.queue == []
    ensures fuel > 0 && st.queue == [] ==> Run(env, st, batchSize, fuel) == RunResult(st, Finished)
    decreases fuel
  {
    if fuel > 0 {
      var k := TakeCount(batchSize, |st.queue|);
      if k > 0 {
        var b := ProcessBatch(env, st.(queue := st.queue[k..]), st.queue[..k]);
        if b.ok {
          FinishedMeansDrained(env, b.state, batchSize, fuel - 1);
        }
      }
    }
  }

  /**
   * With one task per round, no URL is ever fetched twice: the queue stays disjoint
   * from the store, because each task is stored before the next one is dequeued.
   */
  lemma {:induction false} SingleTaskRoundsNeverRevisit(env: Env, st: State, fuel: nat)
    requires NoRevisitInvariant(st)
    ensures NoRevisitInvariant(Run(env, st, 1, fuel).state)
    decreases fuel
  {
    if fuel > 0 && st.queue != [] {
      var q := st.queue;
      var t := q[0].value;
      var st1 := st.(queue := q[1..]);
      assert t.url !in st.store;
      assert t.url !in QueueUrls(q[1..]) by {
        forall i | 0 <= i < |q[1..]| ensures q[1..][i].value.url != t.url {
          assert q[1..][i] == q[i + 1];
        }
      }
      SuffixUnique(q, 1);
      assert DisjointFromStore(q[1..], st.store) by {
        forall i | 0 <= i < |q[1..]| && q[1..][i].Some? ensures q[1..][i].value.url !in st.store {
          assert q[1..][i] == q[i + 1];
        }
      }
      EntryKeepsNoRevisit(env, st1, t);
      assert q[..1] == [Some(t)];
      var b := ProcessBatch(env, st1, [Some(t)]);
      var e := ProcessEntry(env, st1, Some(t));
      assert [Some(t)][1..] == [];
      assert ProcessBatch(env, e.state, []) == Step(e.state, true);
      assert b.state == e.state;
      SingleTaskRoundsNeverRevisit(env, b.state, fuel - 1);
    }
  }

  /** A fresh crawl state holding one seed task. */
  function SeedState(seed: Task): State {
    State([Some(seed)], map[], [])
  }

  /** From the state the worker's constructor creates, a crawl with one task per round never fetches a URL twice. */
  lemma SeededSingleTaskCrawlNeverRevisits(env: Env, seed: Task, fuel: nat)
    ensures DistinctSeq(Run(env, SeedState(seed), 1, fuel).state.fetched)
  {
    SingleTaskRoundsNeverRevisit(env, SeedState(seed), fuel);
  }

  /**
   * A seed page without links: one non-empty round fetches and stores the seed, the
   * next dequeue is empty, and the crawl finishes with exactly one stored result.
   */
  lemma SeedWithoutLinks(env: Env, seed: Task, batchSize: int, fuel: nat)
    requires batchSize >= 1 && fuel >= 2
    requires env.fetch(seed.url).links == []
    ensures Run(env, SeedState(seed), batchSize, fuel) ==
      RunResult(State([], map[seed.url := StoredPage(ToObject(env.fetch(seed.url)))], [seed.url]), Finished)
  {
    var st := SeedState(seed);
    assert TakeCount(batchSize, 1) == 1;
    assert st.queue[..1] == [Some(seed)] && st.queue[1..] == [];
    var after := State([], map[seed.url := StoredPage(ToObject(env.fetch(seed.url)))], [seed.url]);
    assert Expand(env, after.store, [], seed.url, []) == Expansion([], false);
    assert ProcessEntry(env, st.(queue := []), Some(seed)) == Step(after, true);
    assert [Some(seed)][1..] == [];
    assert ProcessBatch(env, st.(queue := []), [Some(seed)]) == Step(after, true);
    assert Run(env, after, batchSize, fuel - 1) == RunResult(after, Finished);
  }
}
