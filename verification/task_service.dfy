/**
 * Task creation and admission (src/services/taskService.js): resolving a
 * discovered link against its page, the same-domain and download tests, and
 * the five-way check that decides whether a task is queued.
 */
module TaskService {
  import opened Wrappers
  import opened Urls
  import opened Tasks
  import opened Config
  import opened Robots
  import opened QueueService
  import opened LocalStorage

  /** `ensureUrlObject`: parses a string, passes a parsed object through; `None` when parsing throws. */
  function EnsureUrlObject(codec: UrlCodec, url: UrlInput): (r: Option<Url>)
    ensures url.Parsed? ==> r == Some(url.u)
    ensures url.Text? ==> r == codec.parse(url.s)
  {
    match url
    case Text(s) => codec.parse(s)
    case Parsed(u) => Some(u)
  }

  /**
   * `getCompleteTaskUrl`: a link with a hostname is kept as it is; a link without one
   * (a port-only authority included) gets the parent's fields with its own pathname
   * and search written over them.
   * The path is replaced, not merged, and the link's own `#fragment` is not copied,
   * so the parent's survives. `None` when either string fails to parse.
   */
  function GetCompleteTaskUrl(codec: UrlCodec, parentUrl: UrlInput, taskUrl: UrlInput): (r: Option<Url>)
    ensures r.Some? <==> EnsureUrlObject(codec, parentUrl).Some? && EnsureUrlObject(codec, taskUrl).Some?
    ensures r.Some? && HasHostname(EnsureUrlObject(codec, taskUrl).value) ==>
      r.value == EnsureUrlObject(codec, taskUrl).value
    ensures r.Some? && !HasHostname(EnsureUrlObject(codec, taskUrl).value) ==>
      var p, t := EnsureUrlObject(codec, parentUrl).value, EnsureUrlObject(codec, taskUrl).value;
      r.value.protocol == p.protocol && r.value.host == p.host && r.value.hostname == p.hostname
      && r.value.hash == p.hash
      && r.value.pathname == t.pathname && r.value.search == t.search
  {
    match (EnsureUrlObject(codec, parentUrl), EnsureUrlObject(codec, taskUrl))
    case (Some(parent), Some(task)) =>
      if !HasHostname(task) then Some(parent.(search := task.search, pathname := task.pathname))
      else Some(task)
    case _ => None
  }

  /** A parent argument is truthy: present and not the empty string. */
  predicate Truthy(parentUrl: Option<string>) {
    parentUrl.Some? && parentUrl.value != ""
  }

  /**
   * `createNewTask`: without a parent, the parsed link is formatted back with no check
   * of any kind; with one, it is first completed against the parent. Any throw from
   * parsing or formatting gives `null` (`None`).
   */
  function CreateNewTask(codec: UrlCodec, parentUrl: Option<string>, taskUrl: string): (r: Option<Task>)
    ensures codec.parse(taskUrl).None? ==> r.None?
    ensures Truthy(parentUrl) && codec.parse(parentUrl.value).None? ==> r.None?
    ensures !Truthy(parentUrl) && codec.parse(taskUrl).Some? ==>
      && (r.Some? <==> codec.format(codec.parse(taskUrl).value).Some?)
      && (r.Some? ==> r.value.url == codec.format(codec.parse(taskUrl).value).value)
    ensures Truthy(parentUrl) && GetCompleteTaskUrl(codec, Text(parentUrl.value), Text(taskUrl)).Some? ==>
      var full := GetCompleteTaskUrl(codec, Text(parentUrl.value), Text(taskUrl)).value;
      && (r.Some? <==> codec.format(full).Some?)
      && (r.Some? ==> r.value.url == codec.format(full).value)
  {
    match codec.parse(taskUrl)
    case None => None
    case Some(parsedTask) =>
      if !Truthy(parentUrl) then
        match codec.format(parsedTask)
        case None => None
        case Some(s) => Some(Task(s))
      else
        match GetCompleteTaskUrl(codec, Text(parentUrl.value), Parsed(parsedTask))
        case None => None
        case Some(full) =>
          match codec.format(full)
          case None => None
          case Some(s) => Some(Task(s))
  }

  /** With no parent, a URL that the codec formats back to itself becomes a task for exactly that URL. */
  lemma SeedTaskIsVerbatim(codec: UrlCodec, parentUrl: Option<string>, url: string)
    requires !Truthy(parentUrl) && RoundTrips(codec, url)
    ensures CreateNewTask(codec, parentUrl, url) == Some(Task(url))
  {
  }

  /** A link with a hostname resolves to its own formatted form, whichever parent it was found on. */
  lemma AbsoluteLinkIgnoresParent(codec: UrlCodec, parent1: string, parent2: string, taskUrl: string)
    requires parent1 != "" && parent2 != ""
    requires codec.parse(parent1).Some? && codec.parse(parent2).Some?
    requires codec.parse(taskUrl).Some? && HasHostname(codec.parse(taskUrl).value)
    ensures CreateNewTask(codec, Some(parent1), taskUrl) == CreateNewTask(codec, Some(parent2), taskUrl)
    ensures CreateNewTask(codec, Some(parent1), taskUrl) == CreateNewTask(codec, None, taskUrl)
  {
  }

  /**
   * A link without a hostname takes the parent's protocol, host, hostname and fragment and its own
   * pathname and search; the parent's path is dropped, not merged.
   */
  lemma HostlessLinkUsesParentOrigin(codec: UrlCodec, parent: string, taskUrl: string)
    requires parent != "" && codec.parse(parent).Some?
    requires codec.parse(taskUrl).Some? && !HasHostname(codec.parse(taskUrl).value)
    ensures
      var p, t := codec.parse(parent).value, codec.parse(taskUrl).value;
      var full := Url(p.protocol, p.host, p.hostname, t.pathname, t.search, p.hash);
      CreateNewTask(codec, Some(parent), taskUrl) ==
        (if codec.format(full).Some? then Some(Task(codec.format(full).value)) else None)
  {
  }

  /** Whether the text `"www."` starts at index `i` of `h`. */
  predicate WwwAt(h: string, i: int) {
    0 <= i && i + 4 <= |h| && h[i] == 'w' && h[i + 1] == 'w' && h[i + 2] == 'w' && h[i + 3] == '.'
  }

  /** `host.replace('www.', '')`: deletes the first occurrence of `"www."`. */
  function StripWww(h: string): (r: string)
    ensures |r| <= |h|
  {
    if |h| < 4 then h
    else if WwwAt(h, 0) then h[4..]
    else [h[0]] + StripWww(h[1..])
  }

  /** A host without `"www."` is left unchanged. */
  lemma {:induction false} StripWwwWithoutWww(h: string)
    requires forall i :: !WwwAt(h, i)
    ensures StripWww(h) == h
    decreases |h|
  {
    if |h| >= 4 {
      var t := h[1..];
      forall i ensures !WwwAt(t, i) {
        if 0 <= i && i + 4 <= |t| { assert !WwwAt(h, i + 1); }
      }
      StripWwwWithoutWww(t);
    }
  }

  /** `StripWww` deletes the FIRST occurrence of `"www."`, wherever it stands in the host. */
  lemma {:induction false} StripWwwFirstOccurrence(h: string, i: nat)
    requires WwwAt(h, i) && forall j :: 0 <= j < i ==> !WwwAt(h, j)
    ensures StripWww(h) == h[..i] + h[i + 4..]
    decreases i
  {
    if i > 0 {
      var t := h[1..];
      assert WwwAt(t, i - 1);
      forall j | 0 <= j < i - 1 ensures !WwwAt(t, j) {
        assert !WwwAt(h, j + 1);
      }
      StripWwwFirstOccurrence(t, i - 1);
      assert [h[0]] + t[..i - 1] == h[..i];
      assert t[i + 3..] == h[i + 4..];
    }
  }

  /**
   * `ensureSameDomain`: the two hosts, port included, are equal once the first `"www."`
   * is deleted from each. `None` when a string fails to parse or a host is `null`
   * (calling `replace` on `null` throws).
   */
  function EnsureSameDomain(codec: UrlCodec, taskUrl: UrlInput, parentUrl: UrlInput): (r: Option<bool>)
    ensures r.Some? <==>
      && EnsureUrlObject(codec, parentUrl).Some? && EnsureUrlObject(codec, parentUrl).value.host.Some?
      && EnsureUrlObject(codec, taskUrl).Some? && EnsureUrlObject(codec, taskUrl).value.host.Some?
    ensures r.Some? ==>
      r.value == (StripWww(EnsureUrlObject(codec, parentUrl).value.host.value)
                  == StripWww(EnsureUrlObject(codec, taskUrl).value.host.value))
  {
    match (EnsureUrlObject(codec, parentUrl), EnsureUrlObject(codec, taskUrl))
    case (Some(parent), Some(task)) =>
      if parent.host.None? || task.host.None? then None
      else Some(StripWww(parent.host.value) == StripWww(task.host.value))
    case _ => None
  }

  /** The same-domain test does not depend on which URL is the task and which the parent. */
  lemma SameDomainSymmetric(codec: UrlCodec, a: UrlInput, b: UrlInput)
    ensures EnsureSameDomain(codec, a, b) == EnsureSameDomain(codec, b, a)
  {
  }

  /** A host without `"www."` and its `www.` form are the same domain. */
  lemma WwwPrefixIgnored(h: string)
    requires forall i :: !WwwAt(h, i)
    ensures StripWww("www." + h) == StripWww(h) == h
  {
    StripWwwWithoutWww(h);
    var w := "www." + h;
    assert WwwAt(w, 0);
    assert w[4..] == h;
  }

  /** A host and its `www.` form are the same domain, in either role. */
  lemma WwwHostSameDomain(codec: UrlCodec, a: string, b: string)
    requires codec.parse(a).Some? && codec.parse(b).Some?
    requires codec.parse(a).value.host.Some? && codec.parse(b).value.host.Some?
    requires forall i :: !WwwAt(codec.parse(a).value.host.value, i)
    requires codec.parse(b).value.host.value == "www." + codec.parse(a).value.host.value
    ensures EnsureSameDomain(codec, Text(a), Text(b)) == Some(true)
    ensures EnsureSameDomain(codec, Text(b), Text(a)) == Some(true)
  {
    WwwPrefixIgnored(codec.parse(a).value.host.value);
  }

  /**
   * `checkForDownloadUrls`: tests the whole URL string against the shared pattern and
   * resets `lastIndex`, so that the next call searches from the start again.
   */
  method CheckForDownloadUrls(regex: DownloadRegex, task: Task) returns (r: bool)
    modifies regex
    ensures r == MatchFrom(regex.words, task.url, old(regex.lastIndex))
    ensures regex.lastIndex == 0
  {
    r := regex.Test(task.url);
    regex.lastIndex := 0;
  }

  /**
   * `validateTask` over the current store contents and queue: a task is admitted when it
   * is not stored, not queued, on the parent's domain, not a download and allowed by
   * robots, checked in that order with `&&`'s short circuit. `None` when a check throws.
   */
  function Admission(codec: UrlCodec, policy: Policy, store: map<string, Stored>, queue: seq<Entry>,
                     task: Task, parentUrl: string): (r: Option<bool>)
    ensures r == Some(true) ==>
      && task.url !in store && Find(queue, task.url) == NotFound
      && EnsureSameDomain(codec, Text(task.url), Text(parentUrl)) == Some(true)
      && !IsDownloadUrl(task.url) && IsUrlAllowed(policy, task.url)
    ensures r.None? ==> task.url !in store && !Find(queue, task.url).Found?
  {
    if task.url in store then Some(false)
    else match Find(queue, task.url)
      case Threw => None
      case Found(_) => Some(false)
      case NotFound =>
        match EnsureSameDomain(codec, Text(task.url), Text(parentUrl))
        case None => None
        case Some(same) =>
          if !same then Some(false)
          else Some(!IsDownloadUrl(task.url) && IsUrlAllowed(policy, task.url))
  }

  /** Admission holds exactly when all five checks pass; it never throws when it answers no earlier. */
  lemma AdmissionIsConjunction(codec: UrlCodec, policy: Policy, store: map<string, Stored>, queue: seq<Entry>,
                               task: Task, parentUrl: string)
    requires NoNull(queue)
    ensures Admission(codec, policy, store, queue, task, parentUrl) == Some(true) <==>
      && task.url !in store
      && task.url !in QueueUrls(queue)
      && EnsureSameDomain(codec, Text(task.url), Text(parentUrl)) == Some(true)
      && !IsDownloadUrl(task.url)
      && IsUrlAllowed(policy, task.url)
    ensures task.url in store ==> Admission(codec, policy, store, queue, task, parentUrl) == Some(false)
  {
    FindWithoutNull(queue, task.url);
  }

  /**
   * `validateTask`: reads the store and the queue, changes neither; the shared pattern's
   * `lastIndex` is back at 0 afterwards.
   */
  method ValidateTask(codec: UrlCodec, policy: Policy, store: LocalStore, queue: TaskQueue,
                      regex: DownloadRegex, task: Task, parentUrl: string) returns (r: Option<bool>)
    requires regex.words == DownloadWords && regex.lastIndex == 0
    modifies regex
    ensures regex.lastIndex == 0
    ensures r == Admission(codec, policy, store.data, queue.tasks, task, parentUrl)
  {
    var stored := store.GetItem(task.url);
    if stored.Some? {
      return Some(false);
    }
    var found := queue.FindTask(task);
    if found.Threw? {
      return None;
    }
    if found.Found? {
      return Some(false);
    }
    var same := EnsureSameDomain(codec, Text(task.url), Text(parentUrl));
    if same.None? {
      return None;
    }
    if !same.value {
      return Some(false);
    }
    var isDownload := CheckForDownloadUrls(regex, task);
    if isDownload {
      return Some(false);
    }
    return Some(IsUrlAllowed(policy, task.url));
  }
}
