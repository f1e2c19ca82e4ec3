/** RSS items and their download tasks: the rows, and what each event does to them. */
module RssModel {
  import opened Common
  import opened Text
  import opened Repositories

  // ---- Rows -----------------------------------------------------------------------------------

  datatype TaskStatus = TaskPending | TaskRunning | TaskPaused | TaskCompleted | TaskFailed | TaskCanceled
                      | OtherTaskStatus(code: nat)

  datatype Task = Task(status: TaskStatus, resultNodeID: Id, hasExternalID: bool, staged: bool,
                       errorMessage: Option<string>)

  datatype ItemStatus = Blank | New | Ignored | Matched | Enqueued | RetryPending | Completed | NeedsAttention
                      | Unsupported

  /** A row of `rss_items`; what only serves matching and display is in `content`. */
  datatype Item = Item(sourceID: Id, dedupKey: string, content: string, downloadURL: string, linkSupported: bool,
                       status: ItemStatus, taskID: Option<Id>, resultNodeID: Id, retryCount: nat, maxRetryCount: int,
                       nextRetryAt: Option<int>, errorMessage: Option<string>, retryReason: Option<string>,
                       matchedSubscriptionID: Option<Id>)

  datatype Subscription = Subscription(sourceID: Id, isEnabled: bool)

  /** What a feed delivers about an entry. */
  datatype Fetched = Fetched(dedupKey: string, content: string, downloadURL: string, linkSupported: bool)

  /** How the task service answers a create request, templates included. */
  datatype CreateOutcome = Created(hasExternalID: bool, staged: bool) | Refused(error: Error)

  /** The functions of the runtime the lifecycle depends on. */
  datatype Wiring = Wiring(isBTLink: string -> bool, classify: Error -> (string, bool), describe: Error -> string,
                           matches: (Subscription, Item) -> bool, committerWired: bool)

  const DEFAULT_MAX_RETRY_COUNT := 3

  type Items = map<Id, Item>
  type Tasks = map<Id, Task>

  /** User commands given for an item: retries, and all others. */
  datatype Commands = Commands(retries: nat, others: nat)

  /** The tables, with what has happened to each item so far. */
  datatype RssState = RssState(items: Items, tasks: Tasks, created: map<Id, set<Id>>, commands: map<Id, Commands>)

  // ---- Predicates of the services -------------------------------------------------------------

  predicate IsTerminal(status: TaskStatus) {
    status == TaskCompleted || status == TaskFailed || status == TaskCanceled
  }

  predicate HasActiveTask(tasks: Tasks, item: Item) {
    item.taskID.Some? && item.taskID.value in tasks && !IsTerminal(tasks[item.taskID.value].status)
  }

  predicate AllowsAutomaticProcessing(item: Item) {
    item.status == Blank || item.status == New || item.status == Ignored || item.status == Matched
  }

  function EffectiveMax(item: Item): (m: nat)
    ensures m > 0
  {
    if item.maxRetryCount <= 0 then DEFAULT_MAX_RETRY_COUNT else item.maxRetryCount
  }

  function RetryBackoff(retryCount: nat): int {
    if retryCount <= 0 then 5 else if retryCount == 1 then 30 else 120
  }

  function TerminalErrorMessage(task: Task): string {
    if task.errorMessage.Some? && TrimSpace(task.errorMessage.value) != "" then TrimSpace(task.errorMessage.value)
    else if task.status == TaskCanceled then "download canceled"
    else "download failed"
  }

  // ---- Item transitions -----------------------------------------------------------------------

  function Settled(item: Item, status: ItemStatus): Item {
    item.(status := status, errorMessage := None, retryReason := None, nextRetryAt := None)
  }

  /** `markItemRetryOrAttention`, with the result-preserving guard in front. */
  function MarkedRetryOrAttention(w: Wiring, item: Item, subscriptionID: Id, error: Error, now: int): Item {
    if item.resultNodeID != 0 then Settled(item, Completed)
    else
      var (reason, retryable) := w.classify(error);
      var again := retryable && item.retryCount < EffectiveMax(item);
      item.(maxRetryCount := EffectiveMax(item), errorMessage := Some(w.describe(error)), retryReason := Some(reason),
            matchedSubscriptionID := if subscriptionID != 0 then Some(subscriptionID) else item.matchedSubscriptionID,
            status := if again then RetryPending else NeedsAttention,
            nextRetryAt := if again then Some(now + RetryBackoff(item.retryCount)) else None)
  }

  function MarkedManualFailure(w: Wiring, item: Item, subscriptionID: Id, error: Error): Item {
    item.(maxRetryCount := EffectiveMax(item), errorMessage := Some(w.describe(error)),
          retryReason := Some(w.classify(error).0), status := NeedsAttention, nextRetryAt := None,
          matchedSubscriptionID := if subscriptionID != 0 then Some(subscriptionID) else item.matchedSubscriptionID)
  }

  function Matching(item: Item, subscriptionID: Id, countRetry: bool): Item {
    Settled(item, Matched).(maxRetryCount := EffectiveMax(item), matchedSubscriptionID := Some(subscriptionID),
                            retryCount := item.retryCount + if countRetry then 1 else 0)
  }

  /** `applyRSSItemTaskBacklink`. */
  function Backlinked(w: Wiring, item: Item, task: Task, now: int): Item {
    var subscriptionID := if item.matchedSubscriptionID.Some? then item.matchedSubscriptionID.value else 0;
    if task.status != TaskCompleted && item.resultNodeID != 0 then Settled(item, Completed)
    else match task.status
      case TaskCompleted =>
        if task.resultNodeID == 0 then MarkedRetryOrAttention(w, item, subscriptionID, MetadataCommitFailed, now)
        else Settled(item, Completed).(resultNodeID := task.resultNodeID)
      case TaskFailed => MarkedRetryOrAttention(w, item, subscriptionID, Message(TerminalErrorMessage(task)), now)
      case TaskCanceled => MarkedRetryOrAttention(w, item, subscriptionID, Message(TerminalErrorMessage(task)), now)
      case _ => item
  }

  /** `upsertFetchedItem` on an existing row. */
  function Refetched(item: Item, fetched: Fetched): Item {
    var status := if fetched.linkSupported then New else Unsupported;
    item.(content := fetched.content, downloadURL := fetched.downloadURL, linkSupported := fetched.linkSupported,
          maxRetryCount := EffectiveMax(item),
          status := if item.status == New || item.status == Ignored
            || item.status == Unsupported then status else item.status)
  }

  function NewItem(sourceID: Id, fetched: Fetched): Item {
    Item(sourceID, fetched.dedupKey, fetched.content, fetched.downloadURL, fetched.linkSupported,
         if fetched.linkSupported then New else Unsupported, None, 0, 0, DEFAULT_MAX_RETRY_COUNT, None, None, None,
           None)
  }

  /** `subscriptionForItemRetry`. */
  function SubscriptionForRetry(w: Wiring, subscriptions: map<Id, Subscription>, item: Item,
                                requested: Id): Result<Id> {
    var id := if requested == 0
      && item.matchedSubscriptionID.Some? then item.matchedSubscriptionID.value else requested;
    if !w.isBTLink(item.downloadURL) then Err(DownloadLinkUnsupported)
    else if id == 0 then Err(PathInvalid)
    else if id !in subscriptions then Err(FileNotFound)
    else if subscriptions[id].sourceID != item.sourceID then Err(PathInvalid)
    else Ok(id)
  }

  /** The first enabled subscription of the item's source that matches. */
  function FirstMatch(w: Wiring, ids: seq<Id>, subscriptions: map<Id, Subscription>, item: Item): Option<Id> {
    if ids == [] then None
    else if ids[0] in subscriptions && subscriptions[ids[0]].isEnabled
      && subscriptions[ids[0]].sourceID == item.sourceID
            && w.matches(subscriptions[ids[0]], item) then Some(ids[0])
    else FirstMatch(w, ids[1..], subscriptions, item)
  }

  // ---- State transitions ----------------------------------------------------------------------

  function WithItem(s: RssState, id: Id, item: Item): RssState {
    s.(items := s.items[id := item])
  }

  function CreatedFor(s: RssState, id: Id): set<Id> {
    if id in s.created then s.created[id] else {}
  }

  function CommandsFor(s: RssState, id: Id): Commands {
    if id in s.commands then s.commands[id] else Commands(0, 0)
  }

  function NoteCommand(s: RssState, id: Id): RssState {
    s.(commands := s.commands[id := Commands(CommandsFor(s, id).retries, CommandsFor(s, id).others + 1)])
  }

  function NoteRetry(s: RssState, id: Id): RssState {
    s.(commands := s.commands[id := Commands(CommandsFor(s, id).retries + 1, CommandsFor(s, id).others)])
  }

  /** `enqueueItemWithAttempt`: the new state, and the error if the attempt failed. */
  function Enqueue(w: Wiring, s: RssState, id: Id, subscriptionID: Id, countRetry: bool,
                   outcome: CreateOutcome): (RssState, Option<Error>)
    requires id in s.items
  {
    var item := s.items[id];
    if HasActiveTask(s.tasks, item) || item.status == Completed then (s, None)
    else if !w.isBTLink(item.downloadURL) then (s, Some(DownloadLinkUnsupported))
    else
      var matching := Matching(item, subscriptionID, countRetry);
      match outcome
      case Refused(error) => (WithItem(s, id, matching), Some(error))
      case Created(hasExternalID, staged) =>
        var t := FreshAbove(s.tasks.Keys);
        (s.(items := s.items[id := matching.(status := Enqueued, taskID := Some(t))],
            tasks := s.tasks[t := Task(TaskPending, 0, hasExternalID, staged, None)],
            created := s.created[id := CreatedFor(s, id) + {t}]),
         None)
  }

  /** `processItem`, given the first matching subscription. */
  function Process(w: Wiring, s: RssState, id: Id, subscription: Option<Id>, outcome: CreateOutcome, now: int): RssState
    requires id in s.items
  {
    var item := s.items[id];
    if HasActiveTask(s.tasks, item) || item.status == Completed then s
    else if subscription.Some? then
      var (s', error) := Enqueue(w, s, id, subscription.value, false, outcome);
      if error.None? then s'
      else WithItem(s', id, MarkedRetryOrAttention(w, item, subscription.value, error.value, now))
    else if item.status != Ignored then WithItem(s, id, item.(status := Ignored, errorMessage := None))
    else s
  }

  /** `retryItemWithSubscription`, past its clock check. */
  function RetryWith(w: Wiring, s: RssState, id: Id, subscriptionID: Id, outcome: CreateOutcome, now: int): RssState
    requires id in s.items
  {
    var (s', error) := Enqueue(w, s, id, subscriptionID, true, outcome);
    if error.None? || id !in s'.items then s'
    else WithItem(s', id, MarkedRetryOrAttention(w, s'.items[id], subscriptionID, error.value, now))
  }

  /** One turn of `retryDueItems` on an item listed as waiting for a retry. */
  function RetryDue(w: Wiring, s: RssState, id: Id, subscription: Result<Id>, outcome: CreateOutcome,
                    now: int): RssState
    requires id in s.items
  {
    var item := s.items[id];
    if item.status != RetryPending || (item.nextRetryAt.Some? && item.nextRetryAt.value > now)
       || HasActiveTask(s.tasks, item) then s
    else if item.resultNodeID != 0 then WithItem(s, id, Settled(item, Completed))
    else if item.taskID.Some? && item.taskID.value in s.tasks && s.tasks[item.taskID.value].status == TaskCompleted
            && s.tasks[item.taskID.value].resultNodeID != 0 then
      WithItem(s, id, Backlinked(w, item, s.tasks[item.taskID.value], now))
    else match subscription
      case Err(error) =>
        WithItem(s, id, Settled(item, NeedsAttention).(errorMessage := Some(w.describe(error))))
      case Ok(subscriptionID) => RetryWith(w, s, id, subscriptionID, outcome, now)
  }

  // ---- Events ---------------------------------------------------------------------------------

  datatype Event =
    | Fetch(existing: Option<Id>, sourceID: Id, fetched: Fetched)
    | AutoProcess(id: Id, subscription: Option<Id>, outcome: CreateOutcome, now: int)
    | Backlink(id: Id, now: int)
    | RetryIfDue(id: Id, chosen: Result<Id>, outcome: CreateOutcome, now: int)
    | Ignore(id: Id)
    | Reprocess(id: Id, subscription: Option<Id>, outcome: CreateOutcome, now: int)
    | RetryCommand(id: Id, subscriptionID: Id, outcome: CreateOutcome, now: int)
    | DownloadCommand(id: Id, subscriptionID: Id, outcome: CreateOutcome)
    | TaskChange(task: Id, next: Task)
    | CreateTask(hasExternalID: bool, staged: bool)

  /** Steps the workers take by themselves; `TaskChange` is the task service's, `CreateTask` a task that
      belongs to no item. */
  predicate IsAutomatic(e: Event) {
    !(e.Ignore? || e.Reprocess? || e.RetryCommand? || e.DownloadCommand?)
  }

  /** A row may only replace an unfinished task, and a completed download has a result. */
  predicate TaskMayBecome(w: Wiring, before: Task, after: Task) {
    && !IsTerminal(before.status)
    && (w.committerWired && after.status == TaskCompleted ==> after.resultNodeID != 0)
  }

  /** What an event does; an event that does not apply does nothing. */
  function Apply(w: Wiring, s: RssState, e: Event): RssState {
    match e
    case Fetch(existing, sourceID, fetched) =>
      if existing.Some? && existing.value in s.items
      then WithItem(s, existing.value, Refetched(s.items[existing.value], fetched))
      else WithItem(s, FreshAbove(s.items.Keys), NewItem(sourceID, fetched))
    case AutoProcess(id, subscription, outcome, now) =>
      if id in s.items && s.items[id].linkSupported && AllowsAutomaticProcessing(s.items[id])
      then Process(w, s, id, subscription, outcome, now) else s
    case Backlink(id, now) =>
      if id !in s.items || s.items[id].taskID.None? then s
      else
        var item, t := s.items[id], s.items[id].taskID.value;
        if t in s.tasks then WithItem(s, id, Backlinked(w, item, s.tasks[t], now))
        else WithItem(s, id, MarkedRetryOrAttention(w, item,
                               if item.matchedSubscriptionID.Some? then item.matchedSubscriptionID.value else 0,
                               Message("download task not found"), now))
    case RetryIfDue(id, subscription, outcome, now) =>
      if id in s.items then RetryDue(w, s, id, subscription, outcome, now) else s
    case Ignore(id) =>
      if id !in s.items || HasActiveTask(s.tasks, s.items[id]) || s.items[id].status == Completed then s
      else NoteCommand(WithItem(s, id, Settled(s.items[id], Ignored)), id)
    case Reprocess(id, subscription, outcome, now) =>
      if id !in s.items || s.items[id].status == Completed then s
      else if !s.items[id].linkSupported then
        NoteCommand(WithItem(s, id, Settled(s.items[id], NeedsAttention)
                                    .(errorMessage := Some("download link unsupported"))), id)
      else if HasActiveTask(s.tasks, s.items[id]) then s
      else Process(w, NoteCommand(s, id), id, subscription, outcome, now)
    case RetryCommand(id, subscriptionID, outcome, now) =>
      if id !in s.items || HasActiveTask(s.tasks, s.items[id]) || s.items[id].status == Completed then s
      else RetryWith(w, NoteRetry(s, id), id, subscriptionID, outcome, now)
    case DownloadCommand(id, subscriptionID, outcome) =>
      if id !in s.items || HasActiveTask(s.tasks, s.items[id]) || s.items[id].status == Completed then s
      else
        var (s', error) := Enqueue(w, NoteCommand(s, id), id, subscriptionID, false, outcome);
        if error.None? || id !in s'.items then s'
        else WithItem(s', id, MarkedManualFailure(w, s'.items[id], subscriptionID, error.value))
    case TaskChange(task, next) =>
      if task in s.tasks && TaskMayBecome(w, s.tasks[task], next) then s.(tasks := s.tasks[task := next]) else s
    case CreateTask(hasExternalID, staged) =>
      s.(tasks := s.tasks[FreshAbove(s.tasks.Keys) := Task(TaskPending, 0, hasExternalID, staged, None)])
  }

  function Run(w: Wiring, s: RssState, events: seq<Event>): RssState {
    if events == [] then s else Apply(w, Run(w, s, events[..|events| - 1]), events[|events| - 1])
  }

  function Empty(): RssState {
    RssState(map[], map[], map[], map[])
  }
}
