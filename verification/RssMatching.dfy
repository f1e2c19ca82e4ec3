/** What becomes of an item and of its task, spelled out: who is chosen, what is created, when it is tried again. */
module RssMatching {
  import opened Common
  import opened Text
  import opened Repositories
  import opened RssModel
  import opened RssTheory
  import opened RetryTurns

  // ---- The subscription -----------------------------------------------------------------------

  /** The subscription exists, is enabled, belongs to the item's source and matches the item. */
  predicate Fits(w: Wiring, subscriptions: map<Id, Subscription>, item: Item, id: Id) {
    && id in subscriptions && subscriptions[id].isEnabled && subscriptions[id].sourceID == item.sourceID
    && w.matches(subscriptions[id], item)
  }

  /** The first of the list that fits. */
  predicate FirstToFit(w: Wiring, ids: seq<Id>, subscriptions: map<Id, Subscription>, item: Item, i: int) {
    && 0 <= i < |ids| && Fits(w, subscriptions, item, ids[i])
    && forall j | 0 <= j < i :: !Fits(w, subscriptions, item, ids[j])
  }

  lemma {:induction false} FirstMatchFits(w: Wiring, ids: seq<Id>, subscriptions: map<Id, Subscription>, item: Item)
    ensures forall i | FirstToFit(w, ids, subscriptions, item, i) ::
              FirstMatch(w, ids, subscriptions, item) == Some(ids[i])
    ensures FirstMatch(w, ids, subscriptions, item).Some? ==>
              exists i :: FirstToFit(w, ids, subscriptions, item, i)
                          && FirstMatch(w, ids, subscriptions, item) == Some(ids[i])
    ensures FirstMatch(w, ids, subscriptions, item).None? <==>
              forall i | 0 <= i < |ids| :: !Fits(w, subscriptions, item, ids[i])
  {
    if ids != [] {
      var rest := ids[1..];
      FirstMatchFits(w, rest, subscriptions, item);
      assert FirstMatch(w, ids, subscriptions, item)
             == if Fits(w, subscriptions, item, ids[0]) then Some(ids[0]) else FirstMatch(w, rest, subscriptions, item);
      hide Fits, FirstMatch;
      if Fits(w, subscriptions, item, ids[0]) {
        assert FirstToFit(w, ids, subscriptions, item, 0);
      } else {
        forall i ensures FirstToFit(w, ids, subscriptions, item, i) <==>
                         i > 0 && FirstToFit(w, rest, subscriptions, item, i - 1)
        {
          assert forall j | 1 <= j < |ids| :: ids[j] == rest[j - 1];
        }
        if i :| FirstToFit(w, rest, subscriptions, item, i) {
          assert FirstToFit(w, ids, subscriptions, item, i + 1);
        }
      }
    }
  }

  // ---- Attempts and failures ------------------------------------------------------------------

  /** The item names a task that is still under way. */
  predicate Busy(tasks: Tasks, item: Item) {
    item.taskID.Some? && item.taskID.value in tasks
    && tasks[item.taskID.value].status !in {TaskCompleted, TaskFailed, TaskCanceled}
  }

  /** The item may be tried this often again; rows without a limit of their own have 3. */
  function Limit(item: Item): int {
    if item.maxRetryCount <= 0 then 3 else item.maxRetryCount
  }

  /** The row after a failure: completed again if it has a result; else waiting 5, 30 or 120 minutes if the error may be
      retried and tries are left, and in need of attention otherwise. */
  predicate RowAfterFailure(w: Wiring, item: Item, row: Item, subscriptionID: Id, error: Error, now: int) {
    if item.resultNodeID != 0 then
      row == item.(status := Completed, errorMessage := None, retryReason := None, nextRetryAt := None)
    else
      var again := w.classify(error).1 && item.retryCount < Limit(item);
      var wait := if item.retryCount == 0 then 5 else if item.retryCount == 1 then 30 else 120;
      && row == item.(status := row.status, nextRetryAt := row.nextRetryAt, maxRetryCount := Limit(item),
                      errorMessage := Some(w.describe(error)), retryReason := Some(w.classify(error).0),
                      matchedSubscriptionID := row.matchedSubscriptionID)
      && row.matchedSubscriptionID == (if subscriptionID != 0 then Some(subscriptionID)
                                       else item.matchedSubscriptionID)
      && (again ==> row.status == RetryPending && row.nextRetryAt == Some(now + wait))
      && (!again ==> row.status == NeedsAttention && row.nextRetryAt == None)
  }

  /** The row after an attempt that made a task. */
  predicate RowWithTask(item: Item, row: Item, subscriptionID: Id, t: Id, counted: bool) {
    row == item.(status := Enqueued, taskID := Some(t), matchedSubscriptionID := Some(subscriptionID),
                 errorMessage := None, retryReason := None, nextRetryAt := None, maxRetryCount := Limit(item),
                 retryCount := item.retryCount + if counted then 1 else 0)
  }

  /** Nothing but item `id` changed among the items. */
  predicate OnlyItem(s: RssState, s': RssState, id: Id) {
    id in s.items && id in s'.items && s'.items == s.items[id := s'.items[id]]
  }

  /** One new pending task, created for the item. */
  ghost predicate OneTaskMore(s: RssState, s': RssState, id: Id, t: Id, hasExternalID: bool, staged: bool) {
    && t !in s.tasks && s'.tasks == s.tasks[t := Task(TaskPending, 0, hasExternalID, staged, None)]
    && s'.created == s.created[id := (if id in s.created then s.created[id] else {}) + {t}]
    && s'.commands == s.commands
  }

  /** No task was created. */
  predicate NoTaskMore(s: RssState, s': RssState) {
    s'.tasks == s.tasks && s'.created == s.created && s'.commands == s.commands
  }

  /** The item was tried with the subscription: a task was made if the link is supported and the task service agreed,
      else the failure is recorded on the row as it was. */
  ghost predicate Tried(w: Wiring, s: RssState, s': RssState, id: Id, subscriptionID: Id, outcome: CreateOutcome,
                        now: int)
    requires OnlyItem(s, s', id)
  {
    var item, row := s.items[id], s'.items[id];
    if !w.isBTLink(item.downloadURL) then
      NoTaskMore(s, s') && RowAfterFailure(w, item, row, subscriptionID, DownloadLinkUnsupported, now)
    else if outcome.Refused? then NoTaskMore(s, s') && RowAfterFailure(w, item, row, subscriptionID, outcome.error, now)
    else exists t :: OneTaskMore(s, s', id, t, outcome.hasExternalID, outcome.staged)
                     && RowWithTask(item, row, subscriptionID, t, false)
  }

  /** What processing does to an item: nothing while its task is under way or once it is completed; else it is tried
      with the first subscription of the list that exists, is enabled, is of its source and matches; and ignored if
      there is none. */
  ghost predicate ProcessedBy(w: Wiring, ids: seq<Id>, subscriptions: map<Id, Subscription>, s: RssState, s': RssState,
                              id: Id, outcome: CreateOutcome, now: int)
    requires OnlyItem(s, s', id)
  {
    var item, row := s.items[id], s'.items[id];
    if Busy(s.tasks, item) || item.status == Completed then s' == s
    else
      && (forall i | FirstToFit(w, ids, subscriptions, item, i) :: Tried(w, s, s', id, ids[i], outcome, now))
      && ((forall i | 0 <= i < |ids| :: !Fits(w, subscriptions, item, ids[i])) ==>
            && NoTaskMore(s, s')
            && row == item.(status := Ignored,
                            errorMessage := if item.status == Ignored then item.errorMessage else None))
  }

  lemma MarkedIsAfterFailure(w: Wiring, item: Item, subscriptionID: Id, error: Error, now: int)
    ensures RowAfterFailure(w, item, MarkedRetryOrAttention(w, item, subscriptionID, error, now), subscriptionID, error,
                            now)
  {
  }

  lemma BusyIsActive(tasks: Tasks, item: Item)
    ensures HasActiveTask(tasks, item) <==> Busy(tasks, item)
  {
  }

  lemma EnqueueTries(w: Wiring, s: RssState, id: Id, subscriptionID: Id, counted: bool, outcome: CreateOutcome)
    requires id in s.items && !Busy(s.tasks, s.items[id]) && s.items[id].status != Completed
    ensures
      var (s', failed) := Enqueue(w, s, id, subscriptionID, counted, outcome);
      var item := s.items[id];
      if !w.isBTLink(item.downloadURL) then s' == s && failed == Some(DownloadLinkUnsupported)
      else if outcome.Refused? then
        failed == Some(outcome.error) && OnlyItem(s, s', id) && NoTaskMore(s, s')
        && s'.items[id] == item.(status := Matched, matchedSubscriptionID := Some(subscriptionID), errorMessage := None,
                                 retryReason := None, nextRetryAt := None, maxRetryCount := Limit(item),
                                 retryCount := item.retryCount + if counted then 1 else 0)
      else
        failed == None && OnlyItem(s, s', id)
        && exists t :: OneTaskMore(s, s', id, t, outcome.hasExternalID, outcome.staged)
                       && RowWithTask(item, s'.items[id], subscriptionID, t, counted)
  {
    BusyIsActive(s.tasks, s.items[id]);
    var (s', failed) := Enqueue(w, s, id, subscriptionID, counted, outcome);
    if w.isBTLink(s.items[id].downloadURL) && outcome.Created? {
      var t := FreshAbove(s.tasks.Keys);
      assert OneTaskMore(s, s', id, t, outcome.hasExternalID, outcome.staged);
    }
  }

  /** The function the service meets says the same. */
  lemma ProcessIsSpelledOut(w: Wiring, ids: seq<Id>, subscriptions: map<Id, Subscription>, s: RssState, id: Id,
                            outcome: CreateOutcome, now: int)
    requires id in s.items
    ensures
      var s' := Process(w, s, id, FirstMatch(w, ids, subscriptions, s.items[id]), outcome, now);
      OnlyItem(s, s', id) && ProcessedBy(w, ids, subscriptions, s, s', id, outcome, now)
  {
    var item, chosen := s.items[id], FirstMatch(w, ids, subscriptions, s.items[id]);
    var s' := Process(w, s, id, chosen, outcome, now);
    FirstMatchFits(w, ids, subscriptions, item);
    BusyIsActive(s.tasks, item);
    hide FirstMatch, Fits, MarkedRetryOrAttention, RowAfterFailure, HasActiveTask, Busy, Enqueue, FirstToFit;
    assert s.items == s.items[id := item];
    if !Busy(s.tasks, item) && item.status != Completed {
      if chosen.Some? {
        EnqueueTries(w, s, id, chosen.value, false, outcome);
        TriedByProcess(w, s, id, chosen.value, outcome, now);
      }
    }
  }

  lemma TriedByProcess(w: Wiring, s: RssState, id: Id, subscriptionID: Id, outcome: CreateOutcome, now: int)
    requires id in s.items && !Busy(s.tasks, s.items[id]) && s.items[id].status != Completed
    ensures
      var s' := Process(w, s, id, Some(subscriptionID), outcome, now);
      OnlyItem(s, s', id) && Tried(w, s, s', id, subscriptionID, outcome, now)
  {
    var item := s.items[id];
    BusyIsActive(s.tasks, item);
    EnqueueTries(w, s, id, subscriptionID, false, outcome);
    MarkedIsAfterFailure(w, item, subscriptionID, DownloadLinkUnsupported, now);
    if outcome.Refused? { MarkedIsAfterFailure(w, item, subscriptionID, outcome.error, now); }
    hide MarkedRetryOrAttention, RowAfterFailure, HasActiveTask, Busy, Enqueue, RowWithTask;
    var (s1, failed) := Enqueue(w, s, id, subscriptionID, false, outcome);
    var s' := Process(w, s, id, Some(subscriptionID), outcome, now);
    assert failed.Some? ==> s' == WithItem(s1, id, MarkedRetryOrAttention(w, item, subscriptionID, failed.value, now));
    assert failed.None? ==> s' == s1;
  }

  /** The item is open to the workers: its link is supported, nobody has dealt with it yet or it was only ignored or
      matched, and no task is under way. */
  predicate OpenToWorkers(tasks: Tasks, item: Item) {
    item.linkSupported && !Busy(tasks, item)
    && (item.status == Blank || item.status == New || item.status == Ignored || item.status == Matched)
  }

  /** The workers process exactly such items; others they leave as they are. */
  lemma AutoProcessIsSpelledOut(w: Wiring, ids: seq<Id>, subscriptions: map<Id, Subscription>, s: RssState, id: Id,
                                outcome: CreateOutcome, now: int)
    requires id in s.items
    ensures
      var s' := Apply(w, s, AutoProcess(id, FirstMatch(w, ids, subscriptions, s.items[id]), outcome, now));
      && OnlyItem(s, s', id)
      && (OpenToWorkers(s.tasks, s.items[id]) ==> ProcessedBy(w, ids, subscriptions, s, s', id, outcome, now))
      && (!OpenToWorkers(s.tasks, s.items[id]) ==> s' == s)
  {
    ProcessIsSpelledOut(w, ids, subscriptions, s, id, outcome, now);
    OpenIff(s.tasks, s.items[id]);
    BusyIsActive(s.tasks, s.items[id]);
    assert s.items == s.items[id := s.items[id]];
    hide ProcessedBy, FirstMatch, OpenToWorkers, AllowsAutomaticProcessing, HasActiveTask, Busy, Enqueue,
         MarkedRetryOrAttention;
  }

  lemma OpenIff(tasks: Tasks, item: Item)
    ensures OpenToWorkers(tasks, item) <==>
              item.linkSupported && AllowsAutomaticProcessing(item) && !HasActiveTask(tasks, item)
  {
  }

  /** The turn of a waiting item counts exactly if its time has come and no task is under way. */
  lemma DueIff(item: Item, tasks: Tasks, now: int)
    ensures IsDue(item, tasks, now) <==>
              (item.nextRetryAt.None? || item.nextRetryAt.value <= now) && !Busy(tasks, item)
  {
  }

  // ---- The other events -----------------------------------------------------------------------

  /** What the end of a task is reported as. */
  predicate ReportOf(task: Task, text: string) {
    if task.errorMessage.Some? && TrimSpace(task.errorMessage.value) != "" then
      text == TrimSpace(task.errorMessage.value)
    else if task.status == TaskCanceled then text == "download canceled"
    else text == "download failed"
  }

  /** What a finished task does to its item: a result completes it; a completion without one, a failure and a
      cancellation are failures, unless the item has a result; a task under way does nothing to an item without one. */
  ghost predicate FollowsTask(w: Wiring, item: Item, row: Item, task: Task, now: int) {
    var bound := if item.matchedSubscriptionID.Some? then item.matchedSubscriptionID.value else 0;
    var done := item.(status := Completed, errorMessage := None, retryReason := None, nextRetryAt := None);
    if task.status == TaskCompleted && task.resultNodeID != 0 then row == done.(resultNodeID := task.resultNodeID)
    else if item.resultNodeID != 0 then row == done
    else if task.status == TaskCompleted then RowAfterFailure(w, item, row, bound, MetadataCommitFailed, now)
    else if task.status == TaskFailed || task.status == TaskCanceled then
      exists text :: ReportOf(task, text) && RowAfterFailure(w, item, row, bound, Message(text), now)
    else row == item
  }

  /** A backlink brings the item up to date with its task; a task that is gone is a failure. */
  lemma BacklinkIsSpelledOut(w: Wiring, s: RssState, id: Id, now: int)
    ensures
      var s' := Apply(w, s, Backlink(id, now));
      && NoTaskMore(s, s')
      && (id !in s.items || s.items[id].taskID.None? ==> s' == s)
      && (id in s.items && s.items[id].taskID.Some? ==>
            && OnlyItem(s, s', id)
            && var item, t := s.items[id], s.items[id].taskID.value;
               var bound := if item.matchedSubscriptionID.Some? then item.matchedSubscriptionID.value else 0;
               if t in s.tasks then FollowsTask(w, item, s'.items[id], s.tasks[t], now)
               else RowAfterFailure(w, item, s'.items[id], bound, Message("download task not found"), now))
  {
    if id in s.items && s.items[id].taskID.Some? {
      var item, t := s.items[id], s.items[id].taskID.value;
      var bound := if item.matchedSubscriptionID.Some? then item.matchedSubscriptionID.value else 0;
      MarkedIsAfterFailure(w, item, bound, Message("download task not found"), now);
      if t in s.tasks { BackLinkedRow(w, item, s.tasks[t], now); }
      hide MarkedRetryOrAttention, RowAfterFailure, Backlinked, FollowsTask;
    }
  }

  lemma BackLinkedRow(w: Wiring, item: Item, task: Task, now: int)
    ensures FollowsTask(w, item, Backlinked(w, item, task, now), task, now)
  {
    var bound := if item.matchedSubscriptionID.Some? then item.matchedSubscriptionID.value else 0;
    MarkedIsAfterFailure(w, item, bound, MetadataCommitFailed, now);
    MarkedIsAfterFailure(w, item, bound, Message(TerminalErrorMessage(task)), now);
    ReportIsMessage(task);
    hide TerminalErrorMessage, ReportOf;
    if item.resultNodeID == 0 { hide MarkedRetryOrAttention, RowAfterFailure; }
  }

  lemma ReportIsMessage(task: Task)
    ensures ReportOf(task, TerminalErrorMessage(task))
  {
    hide TrimSpace;
  }

  /** What an entry of a feed does: a new item that is new or unsupported; an old one takes over what was fetched, and
      is new or unsupported again only if it was new, ignored or unsupported. */
  lemma FetchIsSpelledOut(w: Wiring, s: RssState, existing: Option<Id>, sourceID: Id, fetched: Fetched)
    ensures
      var s' := Apply(w, s, Fetch(existing, sourceID, fetched));
      && NoTaskMore(s, s')
      && if existing.Some? && existing.value in s.items then
           && OnlyItem(s, s', existing.value)
           && var item, row := s.items[existing.value], s'.items[existing.value];
              && row == item.(content := fetched.content, downloadURL := fetched.downloadURL,
                              linkSupported := fetched.linkSupported, maxRetryCount := Limit(item),
                              status := row.status)
              && row.status == if item.status in {New, Ignored, Unsupported}
                               then (if fetched.linkSupported then New else Unsupported) else item.status
         else
           exists id ::
             && id !in s.items && id in s'.items && s'.items == s.items[id := s'.items[id]]
             && s'.items[id] == Item(sourceID, fetched.dedupKey, fetched.content, fetched.downloadURL,
                                     fetched.linkSupported, if fetched.linkSupported then New else Unsupported, None,
                                     0, 0, 3, None, None, None, None)
  {
    var s' := Apply(w, s, Fetch(existing, sourceID, fetched));
    if !(existing.Some? && existing.value in s.items) {
      var id := FreshAbove(s.items.Keys);
      assert id !in s.items && s'.items == s.items[id := s'.items[id]];
    }
  }

  /** An attempt that counts as a retry. A refusal is recorded on the row as the attempt left it. */
  ghost predicate Retried(w: Wiring, s: RssState, s': RssState, id: Id, subscriptionID: Id, outcome: CreateOutcome,
                          now: int)
    requires OnlyItem(s, s', id)
  {
    var item, row := s.items[id], s'.items[id];
    if !w.isBTLink(item.downloadURL) then
      NoTaskMore(s, s') && RowAfterFailure(w, item, row, subscriptionID, DownloadLinkUnsupported, now)
    else if outcome.Refused? then
      && NoTaskMore(s, s')
      && RowAfterFailure(w, item.(retryCount := item.retryCount + 1, maxRetryCount := Limit(item),
                                  matchedSubscriptionID := Some(subscriptionID)),
                         row, subscriptionID, outcome.error, now)
    else exists t :: OneTaskMore(s, s', id, t, outcome.hasExternalID, outcome.staged)
                     && RowWithTask(item, row, subscriptionID, t, true)
  }

  lemma RetryWithTries(w: Wiring, s: RssState, id: Id, subscriptionID: Id, outcome: CreateOutcome, now: int)
    requires id in s.items && !Busy(s.tasks, s.items[id]) && s.items[id].status != Completed
    ensures
      var s' := RetryWith(w, s, id, subscriptionID, outcome, now);
      OnlyItem(s, s', id) && Retried(w, s, s', id, subscriptionID, outcome, now)
  {
    var item := s.items[id];
    var (s1, failed) := Enqueue(w, s, id, subscriptionID, true, outcome);
    EnqueueTries(w, s, id, subscriptionID, true, outcome);
    MarkedIsAfterFailure(w, item, subscriptionID, DownloadLinkUnsupported, now);
    if outcome.Refused? && w.isBTLink(item.downloadURL) {
      MarkedIsAfterFailure(w, s1.items[id], subscriptionID, outcome.error, now);
      AttemptIsOverwritten(w, item, s1.items[id], MarkedRetryOrAttention(w, s1.items[id], subscriptionID, outcome.error,
                                                                         now), subscriptionID, outcome.error, now);
    }
    hide MarkedRetryOrAttention, RowAfterFailure, HasActiveTask, Busy, Enqueue, RowWithTask;
    assert s.items == s.items[id := item];
  }

  lemma AttemptIsOverwritten(w: Wiring, item: Item, tried: Item, row: Item, subscriptionID: Id, error: Error, now: int)
    requires tried == item.(status := Matched, matchedSubscriptionID := Some(subscriptionID), errorMessage := None,
                            retryReason := None, nextRetryAt := None, maxRetryCount := Limit(item),
                            retryCount := item.retryCount + 1)
    requires RowAfterFailure(w, tried, row, subscriptionID, error, now)
    ensures RowAfterFailure(w, item.(retryCount := item.retryCount + 1, maxRetryCount := Limit(item),
                                     matchedSubscriptionID := Some(subscriptionID)), row, subscriptionID, error, now)
  {
  }

  /** What the turn of a waiting item does: nothing before its time or while its task is under way; it is completed if
      it or its task has a result, in need of attention without a subscription to try, and else tried again. */
  ghost predicate TurnTaken(w: Wiring, s: RssState, s': RssState, id: Id, chosen: Result<Id>, outcome: CreateOutcome,
                            now: int)
    requires OnlyItem(s, s', id)
  {
    var item, row := s.items[id], s'.items[id];
    var done := item.(status := Completed, errorMessage := None, retryReason := None, nextRetryAt := None);
    if item.status != RetryPending || Busy(s.tasks, item) || (item.nextRetryAt.Some? && item.nextRetryAt.value > now)
    then s' == s
    else if item.resultNodeID != 0 then NoTaskMore(s, s') && row == done
    else if item.taskID.Some? && item.taskID.value in s.tasks && s.tasks[item.taskID.value].status == TaskCompleted
            && s.tasks[item.taskID.value].resultNodeID != 0 then
      NoTaskMore(s, s') && row == done.(resultNodeID := s.tasks[item.taskID.value].resultNodeID)
    else if chosen.Err? then
      NoTaskMore(s, s') && row == done.(status := NeedsAttention, errorMessage := Some(w.describe(chosen.error)))
    else Retried(w, s, s', id, chosen.value, outcome, now)
  }

  lemma NothingWritten(s: RssState, id: Id)
    requires id in s.items
    ensures OnlyItem(s, s, id)
  {
    assert s.items == s.items[id := s.items[id]];
  }

  lemma RowWritten(s: RssState, id: Id, row: Item)
    requires id in s.items
    ensures OnlyItem(s, WithItem(s, id, row), id) && NoTaskMore(s, WithItem(s, id, row))
    ensures WithItem(s, id, row).items[id] == row
  {
  }

  lemma TurnIsSpelledOut(w: Wiring, s: RssState, id: Id, chosen: Result<Id>, outcome: CreateOutcome, now: int)
    requires id in s.items
    ensures
      var s' := RetryDue(w, s, id, chosen, outcome, now);
      OnlyItem(s, s', id) && TurnTaken(w, s, s', id, chosen, outcome, now)
  {
    var item := s.items[id];
    BusyIsActive(s.tasks, item);
    NothingWritten(s, id);
    forall row { RowWritten(s, id, row); }
    if item.taskID.Some? && item.taskID.value in s.tasks && s.tasks[item.taskID.value].status == TaskCompleted
       && s.tasks[item.taskID.value].resultNodeID != 0 {
      ResultIsTaken(w, item, s.tasks[item.taskID.value], now);
    }
    hide HasActiveTask, Busy, RetryWith, Retried, Backlinked, OnlyItem, NoTaskMore, WithItem;
    if chosen.Ok? && !Busy(s.tasks, item) && item.status == RetryPending {
      RetryWithTries(w, s, id, chosen.value, outcome, now);
    }
  }

  lemma RetryIsSpelledOut(w: Wiring, s: RssState, id: Id, chosen: Result<Id>, outcome: CreateOutcome, now: int)
    ensures
      var s' := Apply(w, s, RetryIfDue(id, chosen, outcome, now));
      if id !in s.items then s' == s else OnlyItem(s, s', id) && TurnTaken(w, s, s', id, chosen, outcome, now)
  {
    hide RetryDue, OnlyItem, TurnTaken;
    if id in s.items { TurnIsSpelledOut(w, s, id, chosen, outcome, now); }
  }

  lemma ResultIsTaken(w: Wiring, item: Item, task: Task, now: int)
    requires task.status == TaskCompleted && task.resultNodeID != 0
    ensures Backlinked(w, item, task, now) == item.(status := Completed, errorMessage := None, retryReason := None,
                                                    nextRetryAt := None, resultNodeID := task.resultNodeID)
  {
    hide MarkedRetryOrAttention;
  }

  // ---- Commands -------------------------------------------------------------------------------

  /** Commands do nothing to items that are missing, completed, or have a task under way; only reprocessing an item
      with an unsupported link does not ask for its task. */
  predicate Commandable(s: RssState, id: Id) {
    id in s.items && s.items[id].status != Completed && !Busy(s.tasks, s.items[id])
  }

  lemma IgnoreIsSpelledOut(w: Wiring, s: RssState, id: Id)
    ensures
      var s' := Apply(w, s, Ignore(id));
      if !Commandable(s, id) then s' == s
      else
        && OnlyItem(s, s', id) && NoTaskMore(NoteCommand(s, id), s')
        && s'.items[id] == s.items[id].(status := Ignored, errorMessage := None, retryReason := None,
                                        nextRetryAt := None)
  {
    if id in s.items { BusyIsActive(s.tasks, s.items[id]); }
  }

  lemma ReprocessIsSpelledOut(w: Wiring, ids: seq<Id>, subscriptions: map<Id, Subscription>, s: RssState, id: Id,
                              outcome: CreateOutcome, now: int)
    requires id in s.items
    ensures
      var s' := Apply(w, s, Reprocess(id, FirstMatch(w, ids, subscriptions, s.items[id]), outcome, now));
      var item := s.items[id];
      if item.status != Completed && !item.linkSupported then
        && OnlyItem(s, s', id) && NoTaskMore(NoteCommand(s, id), s')
        && s'.items[id] == item.(status := NeedsAttention, errorMessage := Some("download link unsupported"),
                                 retryReason := None, nextRetryAt := None)
      else if !Commandable(s, id) then s' == s
      else
        && OnlyItem(NoteCommand(s, id), s', id)
        && ProcessedBy(w, ids, subscriptions, NoteCommand(s, id), s', id, outcome, now)
  {
    BusyIsActive(s.tasks, s.items[id]);
    ProcessIsSpelledOut(w, ids, subscriptions, NoteCommand(s, id), id, outcome, now);
    hide FirstMatch, Process, ProcessedBy, HasActiveTask, Busy;
  }

  lemma RetryCommandIsSpelledOut(w: Wiring, s: RssState, id: Id, subscriptionID: Id, outcome: CreateOutcome, now: int)
    ensures
      var s' := Apply(w, s, RetryCommand(id, subscriptionID, outcome, now));
      if !Commandable(s, id) then s' == s
      else
        OnlyItem(NoteRetry(s, id), s', id) && Retried(w, NoteRetry(s, id), s', id, subscriptionID, outcome, now)
  {
    if id in s.items {
      BusyIsActive(s.tasks, s.items[id]);
      hide RetryWith, Retried, HasActiveTask, Busy;
      if Commandable(s, id) {
        SameBusiness(s, NoteRetry(s, id), id);
        RetryWithTries(w, NoteRetry(s, id), id, subscriptionID, outcome, now);
      }
    }
  }

  lemma SameBusiness(s: RssState, noted: RssState, id: Id)
    requires id in s.items && noted.items == s.items && noted.tasks == s.tasks
    ensures Busy(noted.tasks, noted.items[id]) == Busy(s.tasks, s.items[id])
  {
  }

  /** A download by hand that fails leaves the item in need of attention, whatever the error. */
  lemma DownloadIsSpelledOut(w: Wiring, s: RssState, id: Id, subscriptionID: Id, outcome: CreateOutcome)
    requires id in s.items ==> w.isBTLink(s.items[id].downloadURL) && subscriptionID != 0
    ensures
      var s' := Apply(w, s, DownloadCommand(id, subscriptionID, outcome));
      if !Commandable(s, id) then s' == s
      else
        && OnlyItem(s, s', id)
        && var item := s.items[id];
           if outcome.Refused? then
             && NoTaskMore(NoteCommand(s, id), s')
             && s'.items[id] == item.(status := NeedsAttention, maxRetryCount := Limit(item), nextRetryAt := None,
                                      errorMessage := Some(w.describe(outcome.error)),
                                      retryReason := Some(w.classify(outcome.error).0),
                                      matchedSubscriptionID := Some(subscriptionID))
           else
             exists t :: OneTaskMore(NoteCommand(s, id), s', id, t, outcome.hasExternalID, outcome.staged)
                         && RowWithTask(item, s'.items[id], subscriptionID, t, false)
  {
    if id in s.items {
      BusyIsActive(s.tasks, s.items[id]);
      if Commandable(s, id) {
        SameBusiness(s, NoteCommand(s, id), id);
        EnqueueTries(w, NoteCommand(s, id), id, subscriptionID, false, outcome);
      }
      hide Enqueue, HasActiveTask, Busy;
    }
  }

  /** The subscription a retry or a download command uses: the one asked for, else the one the item is bound to; it
      has to exist and to belong to the item's source, enabled or not. */
  lemma RetryUses(w: Wiring, subscriptions: map<Id, Subscription>, item: Item, requested: Id)
    ensures
      var bound := if item.matchedSubscriptionID.Some? then item.matchedSubscriptionID.value else 0;
      var asked := if requested != 0 then requested else bound;
      var chosen := SubscriptionForRetry(w, subscriptions, item, requested);
      if !w.isBTLink(item.downloadURL) then chosen == Err(DownloadLinkUnsupported)
      else if asked == 0 then chosen == Err(PathInvalid)
      else if asked !in subscriptions then chosen == Err(FileNotFound)
      else if subscriptions[asked].sourceID != item.sourceID then chosen == Err(PathInvalid)
      else chosen == Ok(asked)
  {
  }

  // ---- Runs -----------------------------------------------------------------------------------

  /** The event tries the item with a subscription the service may use: a fitting one if it processes the item, one of
      the item's source if it retries or downloads it. */
  predicate Chosen(w: Wiring, subscriptions: map<Id, Subscription>, s: RssState, e: Event) {
    match e
    case AutoProcess(id, chosen, _, _) =>
      id in s.items && chosen.Some? ==> Fits(w, subscriptions, s.items[id], chosen.value)
    case Reprocess(id, chosen, _, _) =>
      id in s.items && chosen.Some? ==> Fits(w, subscriptions, s.items[id], chosen.value)
    case RetryIfDue(id, chosen, _, _) =>
      id in s.items && chosen.Ok? ==> OfItsSource(subscriptions, s.items[id], chosen.value)
    case RetryCommand(id, chosen, _, _) => id in s.items ==> OfItsSource(subscriptions, s.items[id], chosen)
    case DownloadCommand(id, chosen, _) => id in s.items ==> OfItsSource(subscriptions, s.items[id], chosen)
    case _ => true
  }

  predicate OfItsSource(subscriptions: map<Id, Subscription>, item: Item, id: Id) {
    id in subscriptions && subscriptions[id].sourceID == item.sourceID
  }

  /** Every event of the run does. */
  ghost predicate AllChosen(w: Wiring, subscriptions: map<Id, Subscription>, s: RssState, events: seq<Event>) {
    forall k | 0 <= k < |events| :: Chosen(w, subscriptions, Run(w, s, events[..k]), events[k])
  }

  lemma NoneChosen(w: Wiring, subscriptions: map<Id, Subscription>, s: RssState)
    ensures AllChosen(w, subscriptions, s, [])
  {
  }

  lemma OneMoreChosen(w: Wiring, subscriptions: map<Id, Subscription>, s: RssState, events: seq<Event>, e: Event)
    requires AllChosen(w, subscriptions, s, events) && Chosen(w, subscriptions, Run(w, s, events), e)
    ensures AllChosen(w, subscriptions, s, events + [e])
  {
    hide Chosen, Run;
    var more := events + [e];
    forall k | 0 <= k < |more| ensures Chosen(w, subscriptions, Run(w, s, more[..k]), more[k]) {
      if k < |events| {
        assert events[k] == more[k] && more[..k] == events[..k];
      } else {
        assert more[..k] == events;
      }
    }
  }

  lemma {:induction false} RunConcat(w: Wiring, s: RssState, a: seq<Event>, b: seq<Event>)
    ensures Run(w, Run(w, s, a), b) == Run(w, s, a + b)
    decreases |b|
  {
    if b == [] {
      assert a + b == a;
    } else {
      RunConcat(w, s, a, b[..|b| - 1]);
      assert (a + b)[..|a + b| - 1] == a + b[..|b| - 1];
    }
  }

  lemma ChosenAt(w: Wiring, subscriptions: map<Id, Subscription>, s: RssState, events: seq<Event>, k: nat)
    requires AllChosen(w, subscriptions, s, events) && k < |events|
    ensures Chosen(w, subscriptions, Run(w, s, events[..k]), events[k])
  {
    hide Run, Chosen;
  }

  lemma ChosenInBoth(w: Wiring, subscriptions: map<Id, Subscription>, s: RssState, events: seq<Event>,
                     more: seq<Event>, k: nat)
    requires AllChosen(w, subscriptions, s, events) && AllChosen(w, subscriptions, Run(w, s, events), more)
    requires k < |events + more|
    ensures Chosen(w, subscriptions, Run(w, s, (events + more)[..k]), (events + more)[k])
  {
    hide *;
    var all, n := events + more, |events|;
    if k < n {
      assert all[..k] == events[..k] && all[k] == events[k];
      ChosenAt(w, subscriptions, s, events, k);
    } else {
      assert all[..k] == events + more[..k - n] && all[k] == more[k - n];
      RunConcat(w, s, events, more[..k - n]);
      ChosenAt(w, subscriptions, Run(w, s, events), more, k - n);
    }
  }

  lemma ChosenConcat(w: Wiring, subscriptions: map<Id, Subscription>, s: RssState, events: seq<Event>,
                     more: seq<Event>)
    requires AllChosen(w, subscriptions, s, events) && AllChosen(w, subscriptions, Run(w, s, events), more)
    ensures AllChosen(w, subscriptions, s, events + more)
  {
    forall k | 0 <= k < |events + more|
      ensures Chosen(w, subscriptions, Run(w, s, (events + more)[..k]), (events + more)[k])
    {
      ChosenInBoth(w, subscriptions, s, events, more, k);
    }
    hide Run, Chosen;
  }

  /** The first match of a list is a fitting one. */
  lemma FirstMatchIsChosen(w: Wiring, ids: seq<Id>, subscriptions: map<Id, Subscription>, s: RssState, id: Id,
                           outcome: CreateOutcome, now: int)
    requires id in s.items
    ensures Chosen(w, subscriptions, s,
                   AutoProcess(id, FirstMatch(w, ids, subscriptions, s.items[id]), outcome, now))
    ensures Chosen(w, subscriptions, s, Reprocess(id, FirstMatch(w, ids, subscriptions, s.items[id]), outcome, now))
  {
    FirstMatchFits(w, ids, subscriptions, s.items[id]);
    hide FirstMatch, Fits;
  }

  lemma RetryIsChosen(w: Wiring, subscriptions: map<Id, Subscription>, s: RssState, id: Id, requested: Id,
                      outcome: CreateOutcome, now: int)
    requires id in s.items
    ensures
      var chosen := SubscriptionForRetry(w, subscriptions, s.items[id], requested);
      && Chosen(w, subscriptions, s, RetryIfDue(id, chosen, outcome, now))
      && (chosen.Ok? ==> Chosen(w, subscriptions, s, RetryCommand(id, chosen.value, outcome, now))
                         && Chosen(w, subscriptions, s, DownloadCommand(id, chosen.value, outcome)))
  {
  }

  /** A task the processing of an item creates belongs to a subscription that exists, is enabled, is of the item's
      source and matches it; the item is bound to it. */
  lemma ProcessedTaskFits(w: Wiring, subscriptions: map<Id, Subscription>, s: RssState, e: Event, t: Id)
    requires (e.AutoProcess? || e.Reprocess?) && Chosen(w, subscriptions, s, e)
    requires t in Apply(w, s, e).tasks && t !in s.tasks
    ensures e.id in s.items && e.id in Apply(w, s, e).items && e.subscription.Some?
    ensures Fits(w, subscriptions, s.items[e.id], e.subscription.value)
    ensures Apply(w, s, e).items[e.id].taskID == Some(t)
    ensures Apply(w, s, e).items[e.id].matchedSubscriptionID == e.subscription
  {
    hide MarkedRetryOrAttention, Fits;
  }

  /** So it is in every run of the service, from any tables. */
  lemma AutomaticTasksFit(w: Wiring, subscriptions: map<Id, Subscription>, s: RssState, events: seq<Event>, k: nat,
                          t: Id)
    requires AllChosen(w, subscriptions, s, events) && k < |events|
    requires events[k].AutoProcess? || events[k].Reprocess?
    requires t in Run(w, s, events[..k + 1]).tasks && t !in Run(w, s, events[..k]).tasks
    ensures
      var before, after, id := Run(w, s, events[..k]), Run(w, s, events[..k + 1]), events[k].id;
      && id in before.items && id in after.items && after.items[id].taskID == Some(t)
      && after.items[id].matchedSubscriptionID.Some?
      && var chosen := after.items[id].matchedSubscriptionID.value;
         && chosen in subscriptions && subscriptions[chosen].isEnabled
         && subscriptions[chosen].sourceID == before.items[id].sourceID
         && w.matches(subscriptions[chosen], before.items[id])
  {
    assert events[..k + 1][..k] == events[..k] && events[..k + 1][k] == events[k];
    assert Run(w, s, events[..k + 1]) == Apply(w, Run(w, s, events[..k]), events[k]);
    assert Chosen(w, subscriptions, Run(w, s, events[..k]), events[k]);
    hide Apply, Run, Chosen;
    ProcessedTaskFits(w, subscriptions, Run(w, s, events[..k]), events[k], t);
  }

  /** Whoever has a task is bound to a subscription of its own source. */
  ghost predicate BoundToOwnSource(subscriptions: map<Id, Subscription>, s: RssState) {
    forall id | id in s.items && s.items[id].taskID.Some? :: Bound(subscriptions, s.items[id])
  }

  predicate Bound(subscriptions: map<Id, Subscription>, item: Item) {
    item.matchedSubscriptionID.Some? && OfItsSource(subscriptions, item, item.matchedSubscriptionID.value)
  }

  /** The row names the same task for the same source, and is bound as before or to a subscription of its source. */
  predicate StaysBound(subscriptions: map<Id, Subscription>, item: Item, row: Item) {
    && row.sourceID == item.sourceID
    && (row.taskID.Some? ==> row.taskID == item.taskID || Bound(subscriptions, row))
    && (row.matchedSubscriptionID == item.matchedSubscriptionID || Bound(subscriptions, row))
  }

  lemma OneRowStaysBound(subscriptions: map<Id, Subscription>, s: RssState, s': RssState, id: Id)
    requires BoundToOwnSource(subscriptions, s) && OnlyItem(s, s', id)
    requires StaysBound(subscriptions, s.items[id], s'.items[id])
    ensures BoundToOwnSource(subscriptions, s')
  {
  }

  lemma FailureStaysBound(w: Wiring, subscriptions: map<Id, Subscription>, item: Item, subscriptionID: Id, error: Error,
                          now: int)
    requires subscriptionID == 0 || OfItsSource(subscriptions, item, subscriptionID)
             || item.matchedSubscriptionID == Some(subscriptionID)
    ensures StaysBound(subscriptions, item, MarkedRetryOrAttention(w, item, subscriptionID, error, now))
  {
  }

  lemma BacklinkStaysBound(w: Wiring, subscriptions: map<Id, Subscription>, item: Item, task: Task, now: int)
    ensures StaysBound(subscriptions, item, Backlinked(w, item, task, now))
  {
    var bound := if item.matchedSubscriptionID.Some? then item.matchedSubscriptionID.value else 0;
    FailureStaysBound(w, subscriptions, item, bound, MetadataCommitFailed, now);
    FailureStaysBound(w, subscriptions, item, bound, Message(TerminalErrorMessage(task)), now);
    hide MarkedRetryOrAttention, TerminalErrorMessage;
  }

  lemma AttemptStaysBound(w: Wiring, subscriptions: map<Id, Subscription>, s: RssState, id: Id, subscriptionID: Id,
                          counted: bool, outcome: CreateOutcome)
    requires id in s.items && OfItsSource(subscriptions, s.items[id], subscriptionID)
    ensures
      var s' := Enqueue(w, s, id, subscriptionID, counted, outcome).0;
      OnlyItem(s, s', id) && StaysBound(subscriptions, s.items[id], s'.items[id])
  {
    assert s.items == s.items[id := s.items[id]];
  }

  lemma StaysBoundTwice(subscriptions: map<Id, Subscription>, a: Item, b: Item, c: Item)
    requires StaysBound(subscriptions, a, b) && StaysBound(subscriptions, b, c)
    ensures StaysBound(subscriptions, a, c)
  {
  }

  lemma ProcessStaysBound(w: Wiring, subscriptions: map<Id, Subscription>, s: RssState, id: Id, chosen: Option<Id>,
                          outcome: CreateOutcome, now: int)
    requires id in s.items && (chosen.Some? ==> OfItsSource(subscriptions, s.items[id], chosen.value))
    ensures
      var s' := Process(w, s, id, chosen, outcome, now);
      OnlyItem(s, s', id) && StaysBound(subscriptions, s.items[id], s'.items[id])
  {
    assert s.items == s.items[id := s.items[id]];
    if chosen.Some? {
      AttemptStaysBound(w, subscriptions, s, id, chosen.value, false, outcome);
      var failed := Enqueue(w, s, id, chosen.value, false, outcome).1;
      if failed.Some? { FailureStaysBound(w, subscriptions, s.items[id], chosen.value, failed.value, now); }
    }
    hide MarkedRetryOrAttention, Enqueue;
  }

  lemma RetryStaysBound(w: Wiring, subscriptions: map<Id, Subscription>, s: RssState, id: Id, subscriptionID: Id,
                        outcome: CreateOutcome, now: int)
    requires id in s.items && OfItsSource(subscriptions, s.items[id], subscriptionID)
    ensures
      var s' := RetryWith(w, s, id, subscriptionID, outcome, now);
      OnlyItem(s, s', id) && StaysBound(subscriptions, s.items[id], s'.items[id])
  {
    AttemptStaysBound(w, subscriptions, s, id, subscriptionID, true, outcome);
    var (s1, failed) := Enqueue(w, s, id, subscriptionID, true, outcome);
    if failed.Some? {
      FailureStaysBound(w, subscriptions, s1.items[id], subscriptionID, failed.value, now);
      StaysBoundTwice(subscriptions, s.items[id], s1.items[id],
                      MarkedRetryOrAttention(w, s1.items[id], subscriptionID, failed.value, now));
    }
    hide MarkedRetryOrAttention, Enqueue, StaysBound;
  }

  /** The row a command leaves. */
  lemma ReprocessedRow(w: Wiring, subscriptions: map<Id, Subscription>, s: RssState, id: Id, chosen: Option<Id>,
                       outcome: CreateOutcome, now: int)
    requires id in s.items && (chosen.Some? ==> OfItsSource(subscriptions, s.items[id], chosen.value))
    ensures
      var s' := Apply(w, s, Reprocess(id, chosen, outcome, now));
      OnlyItem(s, s', id) && StaysBound(subscriptions, s.items[id], s'.items[id])
  {
    ProcessStaysBound(w, subscriptions, NoteCommand(s, id), id, chosen, outcome, now);
    assert s.items == s.items[id := s.items[id]];
    hide Process;
  }

  lemma RetriedRow(w: Wiring, subscriptions: map<Id, Subscription>, s: RssState, id: Id, chosen: Id,
                   outcome: CreateOutcome, now: int)
    requires id in s.items && OfItsSource(subscriptions, s.items[id], chosen)
    ensures
      var s' := Apply(w, s, RetryCommand(id, chosen, outcome, now));
      OnlyItem(s, s', id) && StaysBound(subscriptions, s.items[id], s'.items[id])
  {
    RetryStaysBound(w, subscriptions, NoteRetry(s, id), id, chosen, outcome, now);
    assert s.items == s.items[id := s.items[id]];
    hide RetryWith;
  }

  lemma IgnoredRow(w: Wiring, subscriptions: map<Id, Subscription>, s: RssState, id: Id)
    requires id in s.items
    ensures
      var s' := Apply(w, s, Ignore(id));
      OnlyItem(s, s', id) && StaysBound(subscriptions, s.items[id], s'.items[id])
  {
    assert s.items == s.items[id := s.items[id]];
  }

  lemma CommandStaysBound(w: Wiring, subscriptions: map<Id, Subscription>, s: RssState, e: Event)
    requires BoundToOwnSource(subscriptions, s) && Chosen(w, subscriptions, s, e) && !IsAutomatic(e)
    ensures BoundToOwnSource(subscriptions, Apply(w, s, e))
  {
    hide Process, Enqueue, RetryWith, MarkedManualFailure, StaysBound, BoundToOwnSource, OnlyItem;
    if e.id in s.items {
      match e {
      case Ignore(id) => IgnoredRow(w, subscriptions, s, id);
      case Reprocess(id, chosen, outcome, now) => ReprocessedRow(w, subscriptions, s, id, chosen, outcome, now);
      case RetryCommand(id, chosen, outcome, now) => RetriedRow(w, subscriptions, s, id, chosen, outcome, now);
      case DownloadCommand(id, chosen, outcome) => DownloadStaysBound(w, subscriptions, s, id, chosen, outcome);
      }
      OneRowStaysBound(subscriptions, s, Apply(w, s, e), e.id);
    } else {
      assert Apply(w, s, e) == s;
    }
  }

  lemma StepStaysBound(w: Wiring, subscriptions: map<Id, Subscription>, s: RssState, e: Event)
    requires BoundToOwnSource(subscriptions, s) && Chosen(w, subscriptions, s, e)
    ensures BoundToOwnSource(subscriptions, Apply(w, s, e))
  {
    var s' := Apply(w, s, e);
    match e
    case Fetch(existing, sourceID, fetched) => FetchIsSpelledOut(w, s, existing, sourceID, fetched);
    case AutoProcess(id, chosen, outcome, now) =>
      if id in s.items {
        ProcessStaysBound(w, subscriptions, s, id, chosen, outcome, now);
        hide Process, StaysBound, BoundToOwnSource;
        if s' != s { OneRowStaysBound(subscriptions, s, s', id); }
      }
    case Backlink(id, now) =>
      if id in s.items && s.items[id].taskID.Some? {
        BacklinkedRowStaysBound(w, subscriptions, s, id, now);
        hide Backlinked, MarkedRetryOrAttention, StaysBound, BoundToOwnSource;
        OneRowStaysBound(subscriptions, s, s', id);
      }
    case RetryIfDue(id, chosen, outcome, now) =>
      if id in s.items {
        TurnStaysBound(w, subscriptions, s, id, chosen, outcome, now);
        hide RetryDue, StaysBound, BoundToOwnSource;
        OneRowStaysBound(subscriptions, s, s', id);
      }
    case Ignore(_) => CommandStaysBound(w, subscriptions, s, e);
    case Reprocess(_, _, _, _) => CommandStaysBound(w, subscriptions, s, e);
    case RetryCommand(_, _, _, _) => CommandStaysBound(w, subscriptions, s, e);
    case DownloadCommand(_, _, _) => CommandStaysBound(w, subscriptions, s, e);
    case TaskChange(task, next) => SameItems(subscriptions, s, s');
    case CreateTask(hasExternalID, staged) => SameItems(subscriptions, s, s');
  }

  lemma SameItems(subscriptions: map<Id, Subscription>, s: RssState, s': RssState)
    requires BoundToOwnSource(subscriptions, s) && s'.items == s.items
    ensures BoundToOwnSource(subscriptions, s')
  {
  }

  lemma BacklinkedRowStaysBound(w: Wiring, subscriptions: map<Id, Subscription>, s: RssState, id: Id, now: int)
    requires id in s.items && s.items[id].taskID.Some?
    ensures
      var s' := Apply(w, s, Backlink(id, now));
      OnlyItem(s, s', id) && StaysBound(subscriptions, s.items[id], s'.items[id])
  {
    var item, t := s.items[id], s.items[id].taskID.value;
    var bound := if item.matchedSubscriptionID.Some? then item.matchedSubscriptionID.value else 0;
    FailureStaysBound(w, subscriptions, item, bound, Message("download task not found"), now);
    if t in s.tasks { BacklinkStaysBound(w, subscriptions, item, s.tasks[t], now); }
    hide Backlinked, MarkedRetryOrAttention, StaysBound;
  }

  lemma TurnStaysBound(w: Wiring, subscriptions: map<Id, Subscription>, s: RssState, id: Id, chosen: Result<Id>,
                       outcome: CreateOutcome, now: int)
    requires id in s.items && (chosen.Ok? ==> OfItsSource(subscriptions, s.items[id], chosen.value))
    ensures
      var s' := RetryDue(w, s, id, chosen, outcome, now);
      OnlyItem(s, s', id) && StaysBound(subscriptions, s.items[id], s'.items[id])
  {
    assert s.items == s.items[id := s.items[id]];
    if chosen.Ok? { RetryStaysBound(w, subscriptions, s, id, chosen.value, outcome, now); }
    if s.items[id].taskID.Some? && s.items[id].taskID.value in s.tasks {
      BacklinkStaysBound(w, subscriptions, s.items[id], s.tasks[s.items[id].taskID.value], now);
    }
    hide Backlinked, RetryWith;
  }

  lemma DownloadStaysBound(w: Wiring, subscriptions: map<Id, Subscription>, s: RssState, id: Id, chosen: Id,
                           outcome: CreateOutcome)
    requires id in s.items && OfItsSource(subscriptions, s.items[id], chosen)
    ensures
      var s' := Apply(w, s, DownloadCommand(id, chosen, outcome));
      OnlyItem(s, s', id) && StaysBound(subscriptions, s.items[id], s'.items[id])
  {
    assert s.items == s.items[id := s.items[id]];
    AttemptStaysBound(w, subscriptions, NoteCommand(s, id), id, chosen, false, outcome);
    hide Enqueue;
  }

  /** In every run of the service whoever has a task is bound to a subscription of its own source. */
  lemma {:induction false} EveryRunStaysBound(w: Wiring, subscriptions: map<Id, Subscription>, s: RssState,
                                              events: seq<Event>)
    requires BoundToOwnSource(subscriptions, s) && AllChosen(w, subscriptions, s, events)
    ensures BoundToOwnSource(subscriptions, Run(w, s, events))
    decreases |events|
  {
    hide Apply, Chosen, BoundToOwnSource;
    if events != [] {
      var front, last := events[..|events| - 1], |events| - 1;
      forall k | 0 <= k < last ensures Chosen(w, subscriptions, Run(w, s, front[..k]), front[k]) {
        assert front[..k] == events[..k] && front[k] == events[k];
        assert Chosen(w, subscriptions, Run(w, s, events[..k]), events[k]);
      }
      EveryRunStaysBound(w, subscriptions, s, front);
      assert Chosen(w, subscriptions, Run(w, s, events[..last]), events[last]);
      StepStaysBound(w, subscriptions, Run(w, s, front), events[last]);
    }
  }
}
