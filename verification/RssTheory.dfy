/** What every run of the RSS and task services keeps. */
module RssTheory {
  import opened Common
  import opened Repositories
  import opened RssModel

  // ---- The invariant --------------------------------------------------------------------------

  /** An item in one of these states may get a task without a retry being counted. */
  predicate IsFresh(status: ItemStatus) {
    status == Blank || status == New || status == Ignored || status == Matched || status == Unsupported
  }

  /** `item` is completed exactly when it has a result, and then its task is completed with that result. */
  predicate ResultIsBacked(item: Item, tasks: Tasks) {
    && (item.status == Completed <==> item.resultNodeID != 0)
    && (item.status == Completed ==>
          && item.taskID.Some? && item.taskID.value in tasks
          && tasks[item.taskID.value].status == TaskCompleted
          && tasks[item.taskID.value].resultNodeID == item.resultNodeID)
  }

  /** Of the tasks created for the item all but the current one are terminal. */
  ghost predicate TasksAreDone(item: Item, tasks: Tasks, created: set<Id>) {
    && created <= tasks.Keys
    && (item.taskID.Some? ==> item.taskID.value in created)
    && forall t | t in created :: item.taskID == Some(t) || IsTerminal(tasks[t].status)
  }

  /** Retries are counted before tasks are created. */
  predicate WithinBudget(item: Item, created: set<Id>, commands: Commands) {
    && (item.status == RetryPending ==> item.retryCount < EffectiveMax(item))
    && item.retryCount <= EffectiveMax(item) + commands.retries
    && |created| + (if IsFresh(item.status) then 1 else 0) <= 1 + item.retryCount + commands.others
  }

  ghost predicate ItemOk(s: RssState, id: Id)
    requires id in s.items
  {
    && ResultIsBacked(s.items[id], s.tasks)
    && TasksAreDone(s.items[id], s.tasks, CreatedFor(s, id))
    && WithinBudget(s.items[id], CreatedFor(s, id), CommandsFor(s, id))
  }

  ghost predicate Inv(w: Wiring, s: RssState) {
    && s.created.Keys <= s.items.Keys && s.commands.Keys <= s.items.Keys
    && (forall id | id in s.items :: ItemOk(s, id))
    && (w.committerWired ==>
          forall t | t in s.tasks && s.tasks[t].status == TaskCompleted :: s.tasks[t].resultNodeID != 0)
  }

  /** What may change between two states of a run: finished tasks never do, and no task disappears. */
  ghost predicate Evolves(s: RssState, s': RssState) {
    && s.tasks.Keys <= s'.tasks.Keys && s.items.Keys <= s'.items.Keys
    && (forall t | t in s.tasks && IsTerminal(s.tasks[t].status) :: s'.tasks[t] == s.tasks[t])
    && (forall id | id in s.items && s.items[id].status == Completed ::
          && s'.items[id].status == Completed && s'.items[id].resultNodeID == s.items[id].resultNodeID
          && s'.items[id].taskID == s.items[id].taskID)
    && (forall id :: CreatedFor(s, id) <= CreatedFor(s', id))
  }

  // ---- One item changes -----------------------------------------------------------------------

  /** The item's row changed, its tasks and counters did not. */
  lemma RowStep(w: Wiring, s: RssState, id: Id, item: Item)
    requires Inv(w, s) && id in s.items
    requires item.taskID == s.items[id].taskID && ResultIsBacked(item, s.tasks)
    requires item.retryCount == s.items[id].retryCount && EffectiveMax(item) == EffectiveMax(s.items[id])
    requires item.status == RetryPending ==> item.retryCount < EffectiveMax(item)
    requires IsFresh(item.status) ==> IsFresh(s.items[id].status)
    requires s.items[id].status == Completed ==>
               item.status == Completed && item.resultNodeID == s.items[id].resultNodeID
    ensures Inv(w, WithItem(s, id, item)) && Evolves(s, WithItem(s, id, item))
  {
    NewRowIsOk(s, id, item);
    OneRowChanged(w, s, id, item);
  }

  /** The new row is fine by itself. */
  lemma NewRowIsOk(s: RssState, id: Id, item: Item)
    requires id in s.items && ItemOk(s, id)
    requires item.taskID == s.items[id].taskID && ResultIsBacked(item, s.tasks)
    requires item.retryCount == s.items[id].retryCount && EffectiveMax(item) == EffectiveMax(s.items[id])
    requires item.status == RetryPending ==> item.retryCount < EffectiveMax(item)
    requires IsFresh(item.status) ==> IsFresh(s.items[id].status)
    ensures ItemOk(WithItem(s, id, item), id)
  {
  }

  /** The other rows do not notice. */
  lemma OneRowChanged(w: Wiring, s: RssState, id: Id, item: Item)
    requires Inv(w, s) && id in s.items && ItemOk(WithItem(s, id, item), id)
    requires s.items[id].status == Completed ==>
               item.status == Completed && item.resultNodeID == s.items[id].resultNodeID
                 && item.taskID == s.items[id].taskID
    ensures Inv(w, WithItem(s, id, item)) && Evolves(s, WithItem(s, id, item))
  {
    hide ItemOk;
    var s' := WithItem(s, id, item);
    forall k | k in s'.items ensures ItemOk(s', k) {
      if k != id { OtherItemsStand(s, s', k); }
    }
  }

  lemma MarkedIsOk(w: Wiring, s: RssState, id: Id, subscriptionID: Id, error: Error, now: int)
    requires Inv(w, s) && id in s.items
    ensures
      var s' := WithItem(s, id, MarkedRetryOrAttention(w, s.items[id], subscriptionID, error, now));
      Inv(w, s') && Evolves(s, s')
  {
    assert ItemOk(s, id);
    RowStep(w, s, id, MarkedRetryOrAttention(w, s.items[id], subscriptionID, error, now));
  }

  lemma BacklinkedIsOk(w: Wiring, s: RssState, id: Id, now: int)
    requires Inv(w, s) && id in s.items
    requires s.items[id].taskID.Some? && s.items[id].taskID.value in s.tasks
    ensures
      var s' := WithItem(s, id, Backlinked(w, s.items[id], s.tasks[s.items[id].taskID.value], now));
      Inv(w, s') && Evolves(s, s')
  {
    hide Inv, Evolves;
    InvOfItem(w, s, id);
    RowStep(w, s, id, Backlinked(w, s.items[id], s.tasks[s.items[id].taskID.value], now));
  }

  // ---- A task is created ----------------------------------------------------------------------

  /** The budget pays for one more task: the item is fresh, or a retry was counted, or a command was. */
  predicate CanAfford(s: RssState, id: Id, countRetry: bool)
    requires id in s.items
  {
    |CreatedFor(s, id)| + 1 <= 1 + s.items[id].retryCount + (if countRetry then 1 else 0) + CommandsFor(s, id).others
  }

  lemma AttemptIsOk(w: Wiring, s: RssState, id: Id, subscriptionID: Id, countRetry: bool)
    requires Inv(w, s) && id in s.items && CanAfford(s, id, countRetry) && s.items[id].status != Completed
    requires countRetry ==> s.items[id].retryCount + 1 <= EffectiveMax(s.items[id]) + CommandsFor(s, id).retries
    ensures
      var s' := WithItem(s, id, Matching(s.items[id], subscriptionID, countRetry));
      Inv(w, s') && Evolves(s, s') && s'.items[id].resultNodeID == 0
  {
    var item := Matching(s.items[id], subscriptionID, countRetry);
    hide Inv;
    InvOfItem(w, s, id);
    assert ItemOk(WithItem(s, id, item), id);
    OneRowChanged(w, s, id, item);
  }

  lemma InvOfItem(w: Wiring, s: RssState, id: Id)
    requires Inv(w, s) && id in s.items
    ensures ItemOk(s, id)
  {
  }

  /** More tasks do not disturb an item they were not created for. */
  lemma OtherItemsStand(s: RssState, s': RssState, k: Id)
    requires k in s.items && k in s'.items && ItemOk(s, k)
    requires s'.items[k] == s.items[k] && CreatedFor(s', k) == CreatedFor(s, k)
             && CommandsFor(s', k) == CommandsFor(s, k)
    requires s.tasks.Keys <= s'.tasks.Keys && forall t | t in s.tasks :: s'.tasks[t] == s.tasks[t]
    ensures ItemOk(s', k)
  {
  }

  function WithTask(s: RssState, id: Id, t: Id, task: Task): RssState
    requires id in s.items
  {
    s.(items := s.items[id := s.items[id].(status := Enqueued, taskID := Some(t))],
       tasks := s.tasks[t := task], created := s.created[id := CreatedFor(s, id) + {t}])
  }

  lemma CreatedItemIsOk(s: RssState, id: Id, t: Id, task: Task)
    requires id in s.items && ItemOk(s, id) && s.items[id].status == Matched && !HasActiveTask(s.tasks, s.items[id])
    requires t !in s.tasks
    ensures ItemOk(WithTask(s, id, t, task), id)
  {
    var s' := WithTask(s, id, t, task);
    assert CreatedFor(s', id) == CreatedFor(s, id) + {t};
  }

  lemma CreatedIsOk(w: Wiring, s: RssState, id: Id, t: Id, task: Task)
    requires Inv(w, s) && id in s.items && s.items[id].status == Matched && !HasActiveTask(s.tasks, s.items[id])
    requires t !in s.tasks && task.status == TaskPending
    ensures Inv(w, WithTask(s, id, t, task)) && Evolves(s, WithTask(s, id, t, task))
  {
    hide ItemOk;
    var s' := WithTask(s, id, t, task);
    CreatedItemIsOk(s, id, t, task);
    forall k | k in s'.items ensures ItemOk(s', k) {
      if k != id { OtherItemsStand(s, s', k); }
    }
  }

  lemma EvolvesTransitive(a: RssState, b: RssState, c: RssState)
    requires Evolves(a, b) && Evolves(b, c)
    ensures Evolves(a, c)
  {
  }

  lemma EnqueueIsOk(w: Wiring, s: RssState, id: Id, subscriptionID: Id, countRetry: bool, outcome: CreateOutcome)
    requires Inv(w, s) && id in s.items && CanAfford(s, id, countRetry)
    requires countRetry ==> s.items[id].retryCount + 1 <= EffectiveMax(s.items[id]) + CommandsFor(s, id).retries
    ensures
      var (s', error) := Enqueue(w, s, id, subscriptionID, countRetry, outcome);
      Evolves(s, s') && Inv(w, s')
  {
    hide Inv, Evolves, CanAfford;
    EvolvesRefl(s);
    if !HasActiveTask(s.tasks, s.items[id]) && s.items[id].status != Completed && w.isBTLink(s.items[id].downloadURL) {
      AttemptIsOk(w, s, id, subscriptionID, countRetry);
      var mid := WithItem(s, id, Matching(s.items[id], subscriptionID, countRetry));
      if outcome.Created? {
        var t := FreshAbove(s.tasks.Keys);
        var task := Task(TaskPending, 0, outcome.hasExternalID, outcome.staged, None);
        assert t !in s.tasks;
        CreatedIsOk(w, mid, id, t, task);
        var s' := Enqueue(w, s, id, subscriptionID, countRetry, outcome).0;
        assert mid.items[id := mid.items[id].(status := Enqueued, taskID := Some(t))] == s'.items;
        assert s' == WithTask(mid, id, t, task);
        EvolvesTransitive(s, mid, s');
      }
    }
  }

  /** A failed attempt changes only the item's row. */
  lemma FailedAttempt(w: Wiring, s: RssState, id: Id, subscriptionID: Id, countRetry: bool, outcome: CreateOutcome)
    requires id in s.items
    ensures
      var (s', error) := Enqueue(w, s, id, subscriptionID, countRetry, outcome);
      error.Some? ==> id in s'.items && s' == WithItem(s, id, s'.items[id])
                      && (s'.items[id] == s.items[id]
                          || s'.items[id] == Matching(s.items[id], subscriptionID, countRetry))
                      && s.items[id].status != Completed
  {
    assert s.items == s.items[id := s.items[id]];
  }

  lemma ProcessIsOk(w: Wiring, s: RssState, id: Id, subscription: Option<Id>, outcome: CreateOutcome, now: int)
    requires Inv(w, s) && id in s.items && CanAfford(s, id, false)
    ensures Inv(w, Process(w, s, id, subscription, outcome, now))
    ensures Evolves(s, Process(w, s, id, subscription, outcome, now))
  {
    hide Inv, Evolves, CanAfford, MarkedRetryOrAttention, Enqueue;
    EvolvesRefl(s);
    var item := s.items[id];
    if !HasActiveTask(s.tasks, item) && item.status != Completed {
      if subscription.Some? {
        EnqueueIsOk(w, s, id, subscription.value, false, outcome);
        FailedAttempt(w, s, id, subscription.value, false, outcome);
        var (s', error) := Enqueue(w, s, id, subscription.value, false, outcome);
        if error.Some? {
          MarkedIsOk(w, s, id, subscription.value, error.value, now);
          var row := MarkedRetryOrAttention(w, item, subscription.value, error.value, now);
          assert s'.items[id := row] == s.items[id := row];
        }
      } else {
        IgnoredIsOk(w, s, id, item.(status := Ignored, errorMessage := None));
      }
    }
  }

  /** An item that can afford a task may be ignored: it stays fresh. */
  lemma IgnoredIsOk(w: Wiring, s: RssState, id: Id, item: Item)
    requires Inv(w, s) && id in s.items && CanAfford(s, id, false) && s.items[id].status != Completed
    requires item == s.items[id].(status := Ignored, errorMessage := item.errorMessage, retryReason := item.retryReason,
                                  nextRetryAt := item.nextRetryAt)
    ensures Inv(w, WithItem(s, id, item)) && Evolves(s, WithItem(s, id, item))
  {
    hide Inv;
    InvOfItem(w, s, id);
    assert ItemOk(WithItem(s, id, item), id);
    OneRowChanged(w, s, id, item);
  }

  lemma RetryWithIsOk(w: Wiring, s: RssState, id: Id, subscriptionID: Id, outcome: CreateOutcome, now: int)
    requires Inv(w, s) && id in s.items && CanAfford(s, id, true)
    requires s.items[id].retryCount + 1 <= EffectiveMax(s.items[id]) + CommandsFor(s, id).retries
    ensures Inv(w, RetryWith(w, s, id, subscriptionID, outcome, now))
    ensures Evolves(s, RetryWith(w, s, id, subscriptionID, outcome, now))
  {
    EnqueueIsOk(w, s, id, subscriptionID, true, outcome);
    FailedAttempt(w, s, id, subscriptionID, true, outcome);
    var (s', error) := Enqueue(w, s, id, subscriptionID, true, outcome);
    if error.Some? {
      MarkedIsOk(w, s', id, subscriptionID, error.value, now);
      EvolvesTransitive(s, s', RetryWith(w, s, id, subscriptionID, outcome, now));
    }
  }

  // ---- Commands and tasks ---------------------------------------------------------------------

  lemma NoteIsOk(w: Wiring, s: RssState, id: Id)
    requires Inv(w, s) && id in s.items
    ensures Inv(w, NoteCommand(s, id)) && Evolves(s, NoteCommand(s, id))
    ensures CanAfford(NoteCommand(s, id), id, false)
    ensures Inv(w, NoteRetry(s, id)) && Evolves(s, NoteRetry(s, id)) && CanAfford(NoteRetry(s, id), id, true)
    ensures s.items[id].retryCount + 1 <= EffectiveMax(s.items[id]) + CommandsFor(NoteRetry(s, id), id).retries
  {
    hide ItemOk;
    NotedItem(s, id);
    forall k | k in s.items ensures ItemOk(NoteCommand(s, id), k) && ItemOk(NoteRetry(s, id), k) {
      MoreCommands(s, NoteCommand(s, id), k);
      MoreCommands(s, NoteRetry(s, id), k);
    }
  }

  lemma NotedItem(s: RssState, id: Id)
    requires id in s.items && ItemOk(s, id)
    ensures CanAfford(NoteCommand(s, id), id, false) && CanAfford(NoteRetry(s, id), id, true)
    ensures s.items[id].retryCount + 1 <= EffectiveMax(s.items[id]) + CommandsFor(NoteRetry(s, id), id).retries
  {
  }

  lemma MoreCommands(s: RssState, s': RssState, k: Id)
    requires k in s.items && ItemOk(s, k) && s' == s.(commands := s'.commands)
    requires CommandsFor(s, k).retries <= CommandsFor(s', k).retries
    requires CommandsFor(s, k).others <= CommandsFor(s', k).others
    ensures ItemOk(s', k)
  {
  }

  lemma TaskChangeIsOk(w: Wiring, s: RssState, t: Id, next: Task)
    requires Inv(w, s) && t in s.tasks && TaskMayBecome(w, s.tasks[t], next)
    ensures Inv(w, s.(tasks := s.tasks[t := next])) && Evolves(s, s.(tasks := s.tasks[t := next]))
  {
    var s' := s.(tasks := s.tasks[t := next]);
    forall k | k in s'.items ensures ItemOk(s', k) {
      assert ItemOk(s, k);
      forall j | j in CreatedFor(s', k) ensures s'.items[k].taskID == Some(j) || IsTerminal(s'.tasks[j].status) {
      }
    }
  }

  lemma NewTaskIsOk(w: Wiring, s: RssState, t: Id, task: Task)
    requires Inv(w, s) && t !in s.tasks && task.status == TaskPending
    ensures Inv(w, s.(tasks := s.tasks[t := task])) && Evolves(s, s.(tasks := s.tasks[t := task]))
  {
    var s' := s.(tasks := s.tasks[t := task]);
    forall k | k in s'.items ensures ItemOk(s', k) {
      assert ItemOk(s, k);
      OtherItemsStand(s, s', k);
    }
  }

  lemma NewItemStands(s: RssState, id: Id, sourceID: Id, fetched: Fetched)
    requires s.created.Keys <= s.items.Keys && s.commands.Keys <= s.items.Keys && id !in s.items
    ensures ItemOk(WithItem(s, id, NewItem(sourceID, fetched)), id)
  {
  }

  lemma NewItemIsOk(w: Wiring, s: RssState, id: Id, sourceID: Id, fetched: Fetched)
    requires Inv(w, s) && id !in s.items
    ensures Inv(w, WithItem(s, id, NewItem(sourceID, fetched)))
            && Evolves(s, WithItem(s, id, NewItem(sourceID, fetched)))
  {
    hide ItemOk, NewItem;
    NewItemStands(s, id, sourceID, fetched);
    var s' := WithItem(s, id, NewItem(sourceID, fetched));
    forall k | k in s'.items ensures ItemOk(s', k) {
      if k != id { OtherItemsStand(s, s', k); }
    }
  }

  // ---- Steps and runs -------------------------------------------------------------------------

  lemma RetryDueIsOk(w: Wiring, s: RssState, id: Id, subscription: Result<Id>, outcome: CreateOutcome, now: int)
    requires Inv(w, s) && id in s.items
    ensures Inv(w, RetryDue(w, s, id, subscription, outcome, now))
    ensures Evolves(s, RetryDue(w, s, id, subscription, outcome, now))
  {
    var item := s.items[id];
    assert ItemOk(s, id);
    if item.status == RetryPending && !(item.nextRetryAt.Some? && item.nextRetryAt.value > now)
       && !HasActiveTask(s.tasks, item) {
      if item.taskID.Some? && item.taskID.value in s.tasks && s.tasks[item.taskID.value].status == TaskCompleted
         && s.tasks[item.taskID.value].resultNodeID != 0 {
        BacklinkedIsOk(w, s, id, now);
      } else if subscription.Err? {
        RowStep(w, s, id, Settled(item, NeedsAttention).(errorMessage := Some(w.describe(subscription.error))));
      } else {
        RetryWithIsOk(w, s, id, subscription.value, outcome, now);
      }
    }
  }

  lemma CommandIsOk(w: Wiring, s: RssState, e: Event)
    requires Inv(w, s) && (e.Ignore? || e.Reprocess? || e.RetryCommand?)
    ensures Inv(w, Apply(w, s, e)) && Evolves(s, Apply(w, s, e))
  {
    hide Inv, Evolves, ItemOk, Enqueue, Process, RetryWith, MarkedRetryOrAttention;
    EvolvesRefl(s);
    if e.id in s.items && s.items[e.id].status != Completed {
      NoteIsOk(w, s, e.id);
      var noted := NoteCommand(s, e.id);
      match e
      case Ignore(id) =>
        IgnoredIsOk(w, noted, id, Settled(s.items[id], Ignored));
        EvolvesTransitive(s, noted, WithItem(noted, id, Settled(s.items[id], Ignored)));
      case Reprocess(id, subscription, outcome, now) =>
        if !s.items[id].linkSupported {
          var row := Settled(s.items[id], NeedsAttention).(errorMessage := Some("download link unsupported"));
          AttentionIsOk(w, noted, id, row);
          EvolvesTransitive(s, noted, WithItem(noted, id, row));
        } else {
          ProcessIsOk(w, noted, id, subscription, outcome, now);
          EvolvesTransitive(s, noted, Process(w, noted, id, subscription, outcome, now));
        }
      case RetryCommand(id, subscriptionID, outcome, now) =>
        RetryWithIsOk(w, NoteRetry(s, id), id, subscriptionID, outcome, now);
        EvolvesTransitive(s, NoteRetry(s, id), RetryWith(w, NoteRetry(s, id), id, subscriptionID, outcome, now));
    }
  }

  lemma AttentionIsOk(w: Wiring, s: RssState, id: Id, row: Item)
    requires Inv(w, s) && id in s.items && s.items[id].status != Completed && row.status == NeedsAttention
    requires row.taskID == s.items[id].taskID && row.resultNodeID == s.items[id].resultNodeID
    requires row.retryCount == s.items[id].retryCount && EffectiveMax(row) == EffectiveMax(s.items[id])
    ensures Inv(w, WithItem(s, id, row)) && Evolves(s, WithItem(s, id, row))
  {
    assert ItemOk(s, id);
    RowStep(w, s, id, row);
  }

  lemma EvolvesRefl(s: RssState)
    ensures Evolves(s, s)
  {
  }

  lemma DownloadIsOk(w: Wiring, s: RssState, e: Event)
    requires Inv(w, s) && e.DownloadCommand?
    ensures Inv(w, Apply(w, s, e)) && Evolves(s, Apply(w, s, e))
  {
    hide Inv, Evolves, ItemOk, CanAfford;
    EvolvesRefl(s);
    var id := e.id;
    if id in s.items && !HasActiveTask(s.tasks, s.items[id]) && s.items[id].status != Completed {
      NoteIsOk(w, s, id);
      var noted := NoteCommand(s, id);
      EnqueueIsOk(w, noted, id, e.subscriptionID, false, e.outcome);
      FailedAttempt(w, noted, id, e.subscriptionID, false, e.outcome);
      var (s', error) := Enqueue(w, noted, id, e.subscriptionID, false, e.outcome);
      EvolvesTransitive(s, noted, s');
      if error.Some? {
        var row := MarkedManualFailure(w, s'.items[id], e.subscriptionID, error.value);
        AttentionIsOk(w, s', id, row);
        EvolvesTransitive(s, s', WithItem(s', id, row));
      }
    }
  }

  lemma AutomaticIsOk(w: Wiring, s: RssState, e: Event)
    requires Inv(w, s) && (e.Fetch? || e.AutoProcess? || e.Backlink?)
    ensures Inv(w, Apply(w, s, e)) && Evolves(s, Apply(w, s, e))
  {
    match e
    case Fetch(existing, sourceID, fetched) =>
      if existing.Some? && existing.value in s.items {
        assert ItemOk(s, existing.value);
        RowStep(w, s, existing.value, Refetched(s.items[existing.value], fetched));
      } else {
        var id := FreshAbove(s.items.Keys);
        NewItemIsOk(w, s, id, sourceID, fetched);
      }
    case AutoProcess(id, subscription, outcome, now) =>
      if id in s.items && AllowsAutomaticProcessing(s.items[id]) {
        assert ItemOk(s, id);
        ProcessIsOk(w, s, id, subscription, outcome, now);
      }
    case Backlink(id, now) =>
      if id in s.items && s.items[id].taskID.Some? {
        assert ItemOk(s, id);
        BacklinkedIsOk(w, s, id, now);
      }
  }

  lemma StepKeepsInv(w: Wiring, s: RssState, e: Event)
    requires Inv(w, s)
    ensures Inv(w, Apply(w, s, e)) && Evolves(s, Apply(w, s, e))
  {
    hide Inv, Evolves, ItemOk, Process, Enqueue, RetryWith, RetryDue, MarkedRetryOrAttention, Backlinked, Refetched;
    EvolvesRefl(s);
    match e
    case RetryIfDue(id, subscription, outcome, now) =>
      if id in s.items { RetryDueIsOk(w, s, id, subscription, outcome, now); }
    case DownloadCommand(_, _, _) => DownloadIsOk(w, s, e);
    case Ignore(_) => CommandIsOk(w, s, e);
    case Reprocess(_, _, _, _) => CommandIsOk(w, s, e);
    case RetryCommand(_, _, _, _) => CommandIsOk(w, s, e);
    case TaskChange(t, next) =>
      if t in s.tasks && TaskMayBecome(w, s.tasks[t], next) { TaskChangeIsOk(w, s, t, next); }
    case CreateTask(hasExternalID, staged) =>
      NewTaskIsOk(w, s, FreshAbove(s.tasks.Keys), Task(TaskPending, 0, hasExternalID, staged, None));
    case _ => AutomaticIsOk(w, s, e);
  }

  /** Every run keeps the invariant; finished tasks and completed items never change again. */
  lemma {:induction false} EveryRunKeepsInv(w: Wiring, s: RssState, events: seq<Event>)
    requires Inv(w, s)
    ensures Inv(w, Run(w, s, events)) && Evolves(s, Run(w, s, events))
    decreases |events|
  {
    hide Inv, Evolves, Apply;
    EvolvesRefl(s);
    if events != [] {
      var front := events[..|events| - 1];
      EveryRunKeepsInv(w, s, front);
      StepKeepsInv(w, Run(w, s, front), events[|events| - 1]);
      EvolvesTransitive(s, Run(w, s, front), Run(w, s, events));
    }
  }

  // ---- What the invariant is for --------------------------------------------------------------

  lemma EmptyIsOk(w: Wiring)
    ensures Inv(w, Empty())
  {
  }

  /** At any time at most one of the tasks ever created for an item is unfinished: the one it names. */
  lemma AtMostOneUnfinishedTask(w: Wiring, events: seq<Event>, id: Id, t: Id, u: Id)
    requires var s := Run(w, Empty(), events);
             id in s.items && t in CreatedFor(s, id) && u in CreatedFor(s, id) && t in s.tasks && u in s.tasks
             && !IsTerminal(s.tasks[t].status) && !IsTerminal(s.tasks[u].status)
    ensures t == u && Run(w, Empty(), events).items[id].taskID == Some(t)
  {
    EmptyIsOk(w);
    EveryRunKeepsInv(w, Empty(), events);
    assert ItemOk(Run(w, Empty(), events), id);
  }

  /** An item never gets more tasks than its retry budget and the user's commands pay for. */
  lemma TaskBudget(w: Wiring, events: seq<Event>, id: Id)
    requires id in Run(w, Empty(), events).items
    ensures
      var s := Run(w, Empty(), events);
      |CreatedFor(s, id)| <= 1 + EffectiveMax(s.items[id]) + CommandsFor(s, id).retries + CommandsFor(s, id).others
  {
    EmptyIsOk(w);
    EveryRunKeepsInv(w, Empty(), events);
    assert ItemOk(Run(w, Empty(), events), id);
  }

  predicate AllAutomatic(events: seq<Event>) {
    forall i | 0 <= i < |events| :: IsAutomatic(events[i])
  }

  /** The step notes no command, and leaves every retry limit at its default. */
  predicate Quiet(s: RssState) {
    s.commands == map[] && forall id | id in s.items :: s.items[id].maxRetryCount == DEFAULT_MAX_RETRY_COUNT
  }

  lemma QuietEnqueue(w: Wiring, s: RssState, id: Id, subscriptionID: Id, countRetry: bool, outcome: CreateOutcome)
    requires Quiet(s) && id in s.items
    ensures Quiet(Enqueue(w, s, id, subscriptionID, countRetry, outcome).0)
  {
  }

  lemma AutomaticStepIsQuiet(w: Wiring, s: RssState, e: Event)
    requires IsAutomatic(e) && Quiet(s)
    ensures Quiet(Apply(w, s, e))
  {
    hide Enqueue, Quiet, HasActiveTask, TerminalErrorMessage;
    match e
    case Fetch(_, _, _) => QuietRows(w, s, e);
    case Backlink(_, _) => QuietRows(w, s, e);
    case AutoProcess(id, subscription, outcome, now) =>
      if id in s.items {
        QuietProcess(w, s, id, subscription, outcome, now);
      }
    case RetryIfDue(id, subscription, outcome, now) =>
      if id in s.items {
        QuietRetry(w, s, id, subscription, outcome, now);
      }
    case TaskChange(_, _) => QuietRows(w, s, e);
    case CreateTask(_, _) => QuietRows(w, s, e);
  }

  lemma QuietRows(w: Wiring, s: RssState, e: Event)
    requires (e.Fetch? || e.Backlink? || e.TaskChange? || e.CreateTask?) && Quiet(s)
    ensures Quiet(Apply(w, s, e))
  {
  }

  lemma QuietProcess(w: Wiring, s: RssState, id: Id, subscription: Option<Id>, outcome: CreateOutcome, now: int)
    requires Quiet(s) && id in s.items
    ensures Quiet(Process(w, s, id, subscription, outcome, now))
  {
    hide Enqueue;
    if subscription.Some? { QuietEnqueue(w, s, id, subscription.value, false, outcome); }
  }

  lemma QuietRetry(w: Wiring, s: RssState, id: Id, subscription: Result<Id>, outcome: CreateOutcome, now: int)
    requires Quiet(s) && id in s.items
    ensures Quiet(RetryDue(w, s, id, subscription, outcome, now))
  {
    hide Enqueue;
    if subscription.Ok? { QuietEnqueue(w, s, id, subscription.value, true, outcome); }
  }

  lemma {:induction false} AutomaticRunIsQuiet(w: Wiring, events: seq<Event>)
    requires AllAutomatic(events)
    ensures Quiet(Run(w, Empty(), events))
    decreases |events|
  {
    hide Apply;
    if events != [] {
      var front := events[..|events| - 1];
      assert AllAutomatic(front);
      AutomaticRunIsQuiet(w, front);
      AutomaticStepIsQuiet(w, Run(w, Empty(), front), events[|events| - 1]);
    }
  }

  /** Without user commands an item gets at most one task and as many more as retries are allowed. */
  lemma AutomaticTaskBudget(w: Wiring, events: seq<Event>, id: Id)
    requires AllAutomatic(events) && id in Run(w, Empty(), events).items
    ensures |CreatedFor(Run(w, Empty(), events), id)| <= 1 + DEFAULT_MAX_RETRY_COUNT
  {
    hide Run;
    TaskBudget(w, events, id);
    AutomaticRunIsQuiet(w, events);
  }

  /** Once completed, an item keeps its status, its result and its task through every later event. */
  lemma CompletedIsForever(w: Wiring, before: seq<Event>, after: seq<Event>, id: Id)
    requires id in Run(w, Empty(), before).items && Run(w, Empty(), before).items[id].status == Completed
    ensures
      var s, s' := Run(w, Empty(), before), Run(w, Run(w, Empty(), before), after);
      && id in s'.items && s'.items[id].status == Completed
      && s'.items[id].resultNodeID == s.items[id].resultNodeID != 0
      && s'.items[id].taskID == s.items[id].taskID
  {
    hide Run;
    EmptyIsOk(w);
    EveryRunKeepsInv(w, Empty(), before);
    EveryRunKeepsInv(w, Run(w, Empty(), before), after);
    assert ItemOk(Run(w, Empty(), before), id);
  }

  /** An item is completed exactly when it has a result, and the result is its completed task's. */
  lemma CompletedMeansResult(w: Wiring, events: seq<Event>, id: Id)
    requires id in Run(w, Empty(), events).items
    ensures ResultIsBacked(Run(w, Empty(), events).items[id], Run(w, Empty(), events).tasks)
  {
    EmptyIsOk(w);
    EveryRunKeepsInv(w, Empty(), events);
    assert ItemOk(Run(w, Empty(), events), id);
  }

  /** A finished task is never touched again. */
  lemma FinishedTasksAreFinal(w: Wiring, before: seq<Event>, after: seq<Event>, t: Id)
    requires t in Run(w, Empty(), before).tasks && IsTerminal(Run(w, Empty(), before).tasks[t].status)
    ensures
      var s, s' := Run(w, Empty(), before), Run(w, Run(w, Empty(), before), after);
      t in s'.tasks && s'.tasks[t] == s.tasks[t]
  {
    hide Run;
    EmptyIsOk(w);
    EveryRunKeepsInv(w, Empty(), before);
    EveryRunKeepsInv(w, Run(w, Empty(), before), after);
  }

  /** With a committer a download is completed only with a result. */
  lemma CompletedTasksHaveResults(w: Wiring, events: seq<Event>, t: Id)
    requires w.committerWired && t in Run(w, Empty(), events).tasks
    requires Run(w, Empty(), events).tasks[t].status == TaskCompleted
    ensures Run(w, Empty(), events).tasks[t].resultNodeID != 0
  {
    EmptyIsOk(w);
    EveryRunKeepsInv(w, Empty(), events);
  }
}
