/** The RSS service: items are fetched, matched, enqueued, reconciled with their tasks and retried. */
module RssService {
  import opened Common
  import opened Repositories
  import opened RssModel
  import opened RssTheory
  import opened RssMatching
  import opened RetryTurns

  class RssTables {
    var items: Items
    var tasks: Tasks
    ghost var created: map<Id, set<Id>>
    ghost var commands: map<Id, Commands>

    constructor ()
      ensures State() == Empty()
    {
      items, tasks, created, commands := map[], map[], map[], map[];
    }

    ghost function State(): RssState
      reads this
    {
      RssState(items, tasks, created, commands)
    }
  }

  lemma RunOneMore(w: Wiring, s: RssState, events: seq<Event>, e: Event)
    ensures Run(w, s, events + [e]) == Apply(w, Run(w, s, events), e)
  {
    assert (events + [e])[..|events + [e]| - 1] == events;
  }

  lemma OneMoreAutomatic(w: Wiring, s: RssState, events: seq<Event>, e: Event)
    requires AllAutomatic(events) && IsAutomatic(e)
    ensures Run(w, s, events + [e]) == Apply(w, Run(w, s, events), e) && AllAutomatic(events + [e])
  {
    RunOneMore(w, s, events, e);
    assert forall i | 0 <= i < |events| :: (events + [e])[i] == events[i];
  }

  /** The item or task an event is about. */
  function SubjectOf(e: Event): Id {
    match e
    case Fetch(existing, _, _) => if existing.Some? then existing.value else 0
    case TaskChange(task, _) => task
    case CreateTask(_, _) => 0
    case AutoProcess(id, _, _, _) => id
    case Backlink(id, _) => id
    case RetryIfDue(id, _, _, _) => id
    case Ignore(id) => id
    case Reprocess(id, _, _, _) => id
    case RetryCommand(id, _, _, _) => id
    case DownloadCommand(id, _, _) => id
  }

  /** One event for each of the ids, as `event` gives it, in some order. */
  ghost predicate OneEach(events: seq<Event>, ids: set<Id>, event: Id -> Event) {
    && |events| == |ids|
    && (forall k | 0 <= k < |events| :: SubjectOf(events[k]) in ids && events[k] == event(SubjectOf(events[k])))
    && (forall id | id in ids :: event(id) in events)
  }

  function BacklinkEvent(now: int): Id -> Event {
    (id: Id) => Backlink(id, now)
  }

  lemma OneMoreEach(events: seq<Event>, ids: set<Id>, event: Id -> Event, id: Id)
    requires OneEach(events, ids, event) && id !in ids && SubjectOf(event(id)) == id
    ensures OneEach(events + [event(id)], ids + {id}, event)
  {
    var more := events + [event(id)];
    assert more[|events|] == event(id);
    forall k | 0 <= k < |more| ensures SubjectOf(more[k]) in ids + {id} && more[k] == event(SubjectOf(more[k])) {
      if k < |events| { assert more[k] == events[k]; }
    }
  }

  /** A cycle over the rows in `before`: the `wanted` ones are taken one by one, each by its event; rows
      not taken are as they were. */
  ghost predicate Sweep(before: Items, items: Items, wanted: set<Id>, taken: set<Id>, listed: set<Id>,
                        event: Id -> Event, events: seq<Event>) {
    && OneEach(events, taken, event) && taken !! listed && taken <= wanted <= taken + listed
    && items.Keys == before.Keys && listed <= before.Keys
    && forall id | id in before && id !in taken :: items[id] == before[id]
  }

  lemma SweepStart(before: Items, wanted: set<Id>, listed: set<Id>, event: Id -> Event)
    requires wanted <= listed <= before.Keys
    ensures Sweep(before, before, wanted, {}, listed, event, [])
  {
  }

  lemma SweepRow(before: Items, items: Items, wanted: set<Id>, taken: set<Id>, listed: set<Id>,
                 event: Id -> Event, events: seq<Event>, id: Id)
    requires Sweep(before, items, wanted, taken, listed, event, events) && id in listed
    ensures id in before && id in items && items[id] == before[id]
    ensures id !in wanted ==> Sweep(before, items, wanted, taken, listed - {id}, event, events)
  {
  }

  lemma SweepTake(before: Items, items: Items, items': Items, wanted: set<Id>, taken: set<Id>, listed: set<Id>,
                  event: Id -> Event, events: seq<Event>, id: Id)
    requires Sweep(before, items, wanted, taken, listed, event, events) && id in listed && id in wanted
    requires SubjectOf(event(id)) == id && items'.Keys == items.Keys
    requires forall k | k in items && k != id :: items'[k] == items[k]
    ensures Sweep(before, items', wanted, taken + {id}, listed - {id}, event, events + [event(id)])
  {
    hide OneEach;
    OneMoreEach(events, taken, event, id);
  }

  lemma SweepShape(before: Items, items: Items, wanted: set<Id>, taken: set<Id>, listed: set<Id>,
                   event: Id -> Event, events: seq<Event>)
    requires Sweep(before, items, wanted, taken, listed, event, events)
    ensures OneEach(events, taken, event) && taken <= wanted && (listed == {} ==> taken == wanted)
    ensures items.Keys == before.Keys && forall id | id in before && id !in taken :: items[id] == before[id]
  {
  }

  lemma SweepLeft(before: Items, items: Items, wanted: set<Id>, taken: set<Id>, listed: set<Id>,
                  event: Id -> Event, events: seq<Event>, id: Id)
    requires Sweep(before, items, wanted, taken, listed, event, events) && id in listed
    ensures id !in taken
  {
  }

  /** One pass of the reconciliation: the backlinks it ran, the rows they are about, those of them that counted, and
      whether the pass came to its end. */
  datatype Pass = Pass(events: seq<Event>, taken: set<Id>, settled: set<Id>, complete: bool)

  /** From `s` to `s'`, the pass ran one backlink for each row it took; a row counts if its task is finished or gone. */
  ghost predicate PassIs(w: Wiring, s: RssState, s': RssState, status: ItemStatus, pass: Pass, now: int) {
    && s' == Run(w, s, pass.events) && AllAutomatic(pass.events)
    && OneEach(pass.events, pass.taken, BacklinkEvent(now)) && pass.taken <= TaskBound(s.items, status)
    && pass.settled == pass.taken * Settling(s.items, s.tasks, status)
    && (pass.complete <==> pass.taken == TaskBound(s.items, status))
    && s'.items.Keys == s.items.Keys && forall k | k in s.items && k !in pass.taken :: s'.items[k] == s.items[k]
  }

  ghost predicate Reconciliation(w: Wiring, s: RssState, s': RssState, passes: seq<Pass>, now: int) {
    && |passes| == 3
    && exists s1, s2 ::
         && PassIs(w, s, s1, Enqueued, passes[0], now) && PassIs(w, s1, s2, RetryPending, passes[1], now)
         && PassIs(w, s2, s', NeedsAttention, passes[2], now)
  }

  function NoPass(complete: bool): Pass {
    Pass([], {}, {}, complete)
  }

  /** The events are those of the first rows of a listing, in its order. */
  ghost predicate InOrder(events: seq<Event>, order: seq<Id>, event: Id -> Event) {
    |events| <= |order| && forall k | 0 <= k < |events| :: events[k] == event(order[k])
  }

  lemma NoTurnYet(event: Id -> Event)
    ensures InOrder([], [], event)
  {
  }

  lemma OneMoreInOrder(events: seq<Event>, order: seq<Id>, event: Id -> Event, id: Id)
    requires |events| == |order| && InOrder(events, order, event)
    ensures InOrder(events + [event(id)], order + [id], event)
  {
  }

  lemma MoreToCome(events: seq<Event>, turns: seq<Id>, order: seq<Id>, event: Id -> Event)
    requires |events| == |turns| && InOrder(events, turns, event) && turns <= order
    ensures InOrder(events, order, event) && order[..|events|] == turns
  {
  }

  lemma SweepEnd(before: Items, items: Items, wanted: set<Id>, taken: set<Id>, event: Id -> Event, events: seq<Event>)
    requires Sweep(before, items, wanted, taken, {}, event, events)
    ensures taken == wanted && OneEach(events, wanted, event)
  {
  }

  class RSSService {
    const db: RssTables
    const w: Wiring
    const subscriptions: map<Id, Subscription>
    const retryWorkerLimit: nat

    constructor (db: RssTables, w: Wiring, subscriptions: map<Id, Subscription>, retryWorkerLimit: nat)
      ensures this.db == db && this.w == w && this.subscriptions == subscriptions
              && this.retryWorkerLimit == retryWorkerLimit
    {
      this.db, this.w, this.subscriptions, this.retryWorkerLimit := db, w, subscriptions, retryWorkerLimit;
    }

    // ---- Single items -------------------------------------------------------------------------

    method ItemHasActiveTask(item: Item) returns (active: bool)
      ensures active == HasActiveTask(db.tasks, item)
    {
      if item.taskID.None? || item.taskID.value !in db.tasks { return false; }
      return !IsTerminal(db.tasks[item.taskID.value].status);
    }

    /** `preserveRSSItemCompletedResult`. */
    method PreserveCompletedResult(id: Id, item: Item) returns (preserved: bool)
      modifies db`items
      ensures preserved == (item.resultNodeID != 0)
      ensures db.items == if preserved
              && item != Settled(item, Completed) then old(db.items)[id := Settled(item, Completed)]
                          else old(db.items)
    {
      if item.resultNodeID == 0 { return false; }
      if item.status == Completed && item.errorMessage.None? && item.retryReason.None? && item.nextRetryAt.None? {
        return true;
      }
      db.items := db.items[id :=
                           item.(status := Completed, errorMessage := None, retryReason := None, nextRetryAt := None)];
      return true;
    }

    /** `markItemRetryOrAttention` for a row in hand, which may be older than the stored one. */
    method MarkItemRetryOrAttention(id: Id, row: Item, subscriptionID: Id, error: Error, now: int)
      requires id in db.items
      requires row.resultNodeID != 0 && row == Settled(row, Completed) ==> db.items[id] == row
      modifies db`items
      ensures db.items == old(db.items)[id := MarkedRetryOrAttention(w, row, subscriptionID, error, now)]
    {
      var preserved := PreserveCompletedResult(id, row);
      if preserved { return; }
      var item := row;
      if item.maxRetryCount <= 0 { item := item.(maxRetryCount := DEFAULT_MAX_RETRY_COUNT); }
      item := item.(errorMessage := Some(w.describe(error)));
      if subscriptionID != 0 { item := item.(matchedSubscriptionID := Some(subscriptionID)); }
      var (reason, retryable) := w.classify(error);
      if retryable && item.retryCount < item.maxRetryCount {
        item := item.(status := RetryPending, retryReason := Some(reason));
        item := item.(nextRetryAt := Some(now + RetryBackoff(item.retryCount)));
      } else {
        item := item.(status := NeedsAttention, retryReason := Some(reason), nextRetryAt := None);
      }
      db.items := db.items[id := item];
    }

    method EnqueueItemWithAttempt(id: Id, subscriptionID: Id, countRetry: bool, outcome: CreateOutcome)
      returns (failed: Option<Error>)
      requires id in db.items
      modifies db
      ensures (db.State(), failed) == Enqueue(w, old(db.State()), id, subscriptionID, countRetry, outcome)
    {
      var item := db.items[id];
      var active := ItemHasActiveTask(item);
      if active { return None; }
      if item.status == Completed { return None; }
      if !w.isBTLink(item.downloadURL) { return Some(DownloadLinkUnsupported); }
      if item.maxRetryCount <= 0 { item := item.(maxRetryCount := DEFAULT_MAX_RETRY_COUNT); }
      if countRetry { item := item.(retryCount := item.retryCount + 1); }
      item := item.(status := Matched, matchedSubscriptionID := Some(subscriptionID));
      item := item.(errorMessage := None, nextRetryAt := None, retryReason := None);
      db.items := db.items[id := item];
      if outcome.Refused? { return Some(outcome.error); }
      var t := FreshAbove(db.tasks.Keys);
      db.tasks := db.tasks[t := Task(TaskPending, 0, outcome.hasExternalID, outcome.staged, None)];
      db.created := db.created[id := CreatedFor(old(db.State()), id) + {t}];
      item := item.(status := Enqueued, taskID := Some(t), errorMessage := None, nextRetryAt := None,
                    retryReason := None);
      db.items := db.items[id := item];
      assert db.items == old(db.items)[id := item];
      return None;
    }

    method ProcessItem(id: Id, subscriptionIDs: seq<Id>, outcome: CreateOutcome, now: int)
      requires id in db.items
      modifies db
      ensures db.State() == Process(w, old(db.State()), id,
                                    FirstMatch(w, subscriptionIDs, subscriptions, old(db.items)[id]), outcome, now)
      ensures OnlyItem(old(db.State()), db.State(), id)
      ensures ProcessedBy(w, subscriptionIDs, subscriptions, old(db.State()), db.State(), id, outcome, now)
    {
      hide MarkedRetryOrAttention, ProcessedBy, OnlyItem;
      ProcessIsSpelledOut(w, subscriptionIDs, subscriptions, db.State(), id, outcome, now);
      var item := db.items[id];
      var active := ItemHasActiveTask(item);
      if active || item.status == Completed { return; }
      var i := 0;
      while i < |subscriptionIDs|
        invariant 0 <= i <= |subscriptionIDs|
        invariant FirstMatch(w, subscriptionIDs, subscriptions, item)
                  == FirstMatch(w, subscriptionIDs[i..], subscriptions, item)
        invariant db.State() == old(db.State())
      {
        var subscriptionID := subscriptionIDs[i];
        i := i + 1;
        assert subscriptionIDs[i - 1..][1..] == subscriptionIDs[i..];
        if subscriptionID !in subscriptions || !subscriptions[subscriptionID].isEnabled
           || subscriptions[subscriptionID].sourceID != item.sourceID { continue; }
        if !w.matches(subscriptions[subscriptionID], item) { continue; }
        var failed := EnqueueItemWithAttempt(id, subscriptionID, false, outcome);
        if failed.Some? {
          MarkItemRetryOrAttention(id, item, subscriptionID, failed.value, now);
        }
        return;
      }
      if item.status != Ignored {
        db.items := db.items[id := item.(status := Ignored, errorMessage := None)];
      }
    }

    method UpsertFetchedItem(sourceID: Id, fetched: Fetched) returns (id: Id, ghost e: Event)
      modifies db`items
      ensures db.State() == Apply(w, old(db.State()), e) && e.Fetch? && id in db.items
      ensures e == Fetch(e.existing, sourceID, fetched) && HasKey(old(db.items), sourceID, fetched.dedupKey, e.existing)
      ensures id == if e.existing.Some? then e.existing.value else FreshAbove(old(db.items).Keys)
    {
      var status := if fetched.linkSupported then New else Unsupported;
      if found :| found in db.items && db.items[found].sourceID == sourceID
                  && db.items[found].dedupKey == fetched.dedupKey {
        var item := db.items[found].(content := fetched.content, downloadURL := fetched.downloadURL,
                                     linkSupported := fetched.linkSupported);
        if item.maxRetryCount <= 0 { item := item.(maxRetryCount := DEFAULT_MAX_RETRY_COUNT); }
        if item.status == New || item.status == Ignored || item.status == Unsupported {
          item := item.(status := status);
        }
        db.items := db.items[found := item];
        return found, Fetch(Some(found), sourceID, fetched);
      }
      id := FreshAbove(db.items.Keys);
      db.items := db.items[id :=
                           Item(sourceID, fetched.dedupKey, fetched.content, fetched.downloadURL, fetched.linkSupported,
                                      status, None, 0, 0, DEFAULT_MAX_RETRY_COUNT, None, None, None, None)];
      return id, Fetch(None, sourceID, fetched);
    }

    /** `applyRSSItemTaskBacklink` for the item's own task. */
    method ApplyBacklink(id: Id, now: int)
      requires id in db.items && db.items[id].taskID.Some? && db.items[id].taskID.value in db.tasks
      modifies db`items
      ensures db.State() == Apply(w, old(db.State()), Backlink(id, now))
    {
      hide MarkedRetryOrAttention, TerminalErrorMessage;
      var item, task := db.items[id], db.tasks[db.items[id].taskID.value];
      var subscriptionID := if item.matchedSubscriptionID.Some? then item.matchedSubscriptionID.value else 0;
      assert db.items[id := item] == db.items;
      if task.status != TaskCompleted {
        var preserved := PreserveCompletedResult(id, item);
        if preserved { return; }
      }
      if task.status == TaskCompleted {
        if task.resultNodeID == 0 {
          MarkItemRetryOrAttention(id, item, subscriptionID, MetadataCommitFailed, now);
          return;
        }
        item := item.(status := Completed, errorMessage := None, retryReason := None, nextRetryAt := None);
        item := item.(resultNodeID := task.resultNodeID);
        db.items := db.items[id := item];
      } else if task.status == TaskFailed || task.status == TaskCanceled {
        MarkItemRetryOrAttention(id, item, subscriptionID, Message(TerminalErrorMessage(task)), now);
      }
    }

    // ---- Automatic cycles ---------------------------------------------------------------------

    /** The items of one status that name a task, one backlink each, until the limit is reached. */
    method ReconcileStatus(status: ItemStatus, limit: nat, processed: nat, now: int)
      returns (done: nat, ghost taken: set<Id>, ghost events: seq<Event>)
      requires processed <= limit
      modifies db`items
      ensures processed <= done <= limit
      ensures OneEach(events, taken, BacklinkEvent(now)) && taken <= TaskBound(old(db.items), status)
      ensures done < limit ==> taken == TaskBound(old(db.items), status)
      ensures done == processed + |taken * Settling(old(db.items), db.tasks, status)|
      ensures forall k | k in old(db.items) && k !in taken :: k in db.items && db.items[k] == old(db.items)[k]
      ensures db.State() == Run(w, old(db.State()), events) && AllAutomatic(events)
      ensures db.items.Keys == old(db.items.Keys)
    {
      hide Apply, Run, OneEach, Sweep, AllAutomatic, TaskBound, Settling;
      done, taken, events := processed, {}, [];
      RunNothing(w, db.State());
      NothingIsAutomatic();
      var listed: set<Id> := set id | id in db.items && db.items[id].status == status;
      ghost var before, wanted, settling := db.items, TaskBound(db.items, status), Settling(db.items, db.tasks, status);
      assert listed == InStatus(before, status) && InStatus(before, status) <= before.Keys;
      hide *;
      NoneCounted(processed, settling);
      BoundIsInStatus(before, status);
      SweepStart(before, wanted, listed, BacklinkEvent(now));
      while listed != {}
        invariant processed <= done <= limit && listed <= InStatus(before, status)
        invariant CountIs(done, processed, taken, settling)
        invariant Sweep(before, db.items, wanted, taken, listed, BacklinkEvent(now), events)
        invariant db.State() == Run(w, old(db.State()), events) && AllAutomatic(events)
        decreases |listed|
      {
        if done >= limit { break; }
        var id :| id in listed;
        done, taken, events := ReconcileRow(id, status, now, old(db.State()), before, wanted, taken, listed, events,
                                            processed, done);
        listed := listed - {id};
      }
      SweepShape(before, db.items, wanted, taken, listed, BacklinkEvent(now), events);
      CountOf(done, processed, taken, settling);
    }

    /** One listed row: left alone without a task, else taken. */
    method ReconcileRow(id: Id, status: ItemStatus, now: int, ghost s: RssState, ghost before: Items,
                        ghost wanted: set<Id>,
                        ghost taken: set<Id>, ghost listed: set<Id>, ghost events: seq<Event>, ghost processed: nat,
                          done: nat)
      returns (done': nat, ghost taken': set<Id>, ghost events': seq<Event>)
      requires id in listed && listed <= InStatus(before, status) && wanted == TaskBound(before, status)
      requires CountIs(done, processed, taken, Settling(before, db.tasks, status))
      requires Sweep(before, db.items, wanted, taken, listed, BacklinkEvent(now), events)
      requires db.State() == Run(w, s, events) && AllAutomatic(events)
      modifies db`items
      ensures done <= done' <= done + 1 && CountIs(done', processed, taken', Settling(before, db.tasks, status))
      ensures Sweep(before, db.items, wanted, taken', listed - {id}, BacklinkEvent(now), events')
      ensures db.State() == Run(w, s, events') && AllAutomatic(events')
    {
      hide Apply, Run, OneEach, Sweep, AllAutomatic, TaskBound, Settling, InStatus;
      done', taken', events' := done, taken, events;
      BoundIsInStatus(before, status);
      SettlingRows(before, db.tasks, status);
      SweepRow(before, db.items, wanted, taken, listed, BacklinkEvent(now), events, id);
      if db.items[id].taskID.Some? {
        ghost var items := db.items;
        var finished := ReconcileOne(id, now);
        if finished { done' := done + 1; }
        SweepTake(before, items, db.items, wanted, taken, listed, BacklinkEvent(now), events, id);
        SweepLeft(before, items, wanted, taken, listed, BacklinkEvent(now), events, id);
        CountOne(taken, Settling(before, db.tasks, status), id);
        OneMoreAutomatic(w, s, events, Backlink(id, now));
        taken', events' := taken + {id}, events + [Backlink(id, now)];
      }
    }

    /** One item of the reconciliation; says whether it counts as processed. */
    method ReconcileOne(id: Id, now: int) returns (finished: bool)
      requires id in db.items && db.items[id].taskID.Some?
      modifies db`items
      ensures db.State() == Apply(w, old(db.State()), Backlink(id, now))
      ensures db.items.Keys == old(db.items).Keys && forall k | k in db.items && k != id ::
              db.items[k] == old(db.items)[k]
      ensures finished == var t := old(db.items)[id].taskID.value; t !in db.tasks || IsTerminal(db.tasks[t].status)
    {
      hide MarkedRetryOrAttention, Backlinked;
      var t := db.items[id].taskID.value;
      ghost var before := db.State();
      OthersKeepTheirRows(w, before, Backlink(id, now));
      if t !in db.tasks {
        LostTask(w, before, id, now);
        MarkItemRetryOrAttention(id, db.items[id],
                                 if db.items[id].matchedSubscriptionID.Some?
                                   then db.items[id].matchedSubscriptionID.value else 0,
                                 Message("download task not found"), now);
        return true;
      }
      ApplyBacklink(id, now);
      return IsTerminal(db.tasks[t].status);
    }

    /** `reconcileTaskBacklinks`: one pass for each of three statuses, over the rows that are in it when the pass
        begins. */
    method ReconcileTaskBacklinks(limit: nat, now: int) returns (processed: nat, ghost passes: seq<Pass>)
      modifies db`items
      ensures processed <= limit && Reconciliation(w, old(db.State()), db.State(), passes, now)
      ensures processed == |passes[0].settled| + |passes[1].settled| + |passes[2].settled|
      ensures processed < limit ==> passes[0].complete && passes[1].complete && passes[2].complete
      ensures processed < limit ==> forall id | id in old(db.items) && Reconciles(old(db.items)[id]) ::
                Backlink(id, now) in passes[0].events + passes[1].events + passes[2].events
    {
      hide Run, OneEach, AllAutomatic, PassIs;
      ghost var s0 := db.State();
      ghost var first, second, third;
      if limit == 0 {
        passes := [NoPass(TaskBound(s0.items, Enqueued) == {}), NoPass(TaskBound(s0.items, RetryPending) == {}),
                   NoPass(TaskBound(s0.items, NeedsAttention) == {})];
        NoPassIsOne(w, s0, Enqueued, now);
        NoPassIsOne(w, s0, RetryPending, now);
        NoPassIsOne(w, s0, NeedsAttention, now);
        assert PassIs(w, s0, s0, Enqueued, passes[0], now) && PassIs(w, s0, s0, RetryPending, passes[1], now)
               && PassIs(w, s0, db.State(), NeedsAttention, passes[2], now);
        return 0, passes;
      }
      ghost var s1, s2;
      processed, first := ReconcilePass(Enqueued, limit, 0, now);
      s1 := db.State();
      processed, second := ReconcilePass(RetryPending, limit, processed, now);
      s2 := db.State();
      processed, third := ReconcilePass(NeedsAttention, limit, processed, now);
      passes := [first, second, third];
      if processed < limit { PassesReachAll(w, s0, s1, s2, db.State(), passes, now); }
    }

    /** One pass, with what it did. */
    method ReconcilePass(status: ItemStatus, limit: nat, processed: nat, now: int) returns (done: nat, ghost pass: Pass)
      requires processed <= limit
      modifies db`items
      ensures processed <= done <= limit && done == processed + |pass.settled| && (done < limit ==> pass.complete)
      ensures PassIs(w, old(db.State()), db.State(), status, pass, now)
    {
      hide Run, OneEach, AllAutomatic, TaskBound, Settling;
      ghost var taken, events;
      ghost var s := db.State();
      done, taken, events := ReconcileStatus(status, limit, processed, now);
      pass := Pass(events, taken, taken * Settling(s.items, s.tasks, status), taken == TaskBound(s.items, status));
    }

    /** One turn of the retry loop on a listed item; says whether it counts as processed. */
    method RetryOne(id: Id, outcome: CreateOutcome, now: int) returns (counted: bool)
      requires id in db.items && db.items[id].status == RetryPending
      modifies db
      ensures db.State() == Apply(w, old(db.State()),
                                  RetryIfDue(id, SubscriptionForRetry(w, subscriptions, old(db.items)[id], 0), outcome,
                                             now))
      ensures !counted ==> db.State() == old(db.State())
      ensures counted == IsDue(old(db.items)[id], old(db.tasks), now) && TasksGrow(old(db.tasks), db.tasks)
    {
      hide MarkedRetryOrAttention, Enqueue, Backlinked, SubscriptionForRetry, RetryWith;
      var item := db.items[id];
      ghost var chosenHere := SubscriptionForRetry(w, subscriptions, item, 0);
      RetryKeepsTasks(w, db.State(), id, chosenHere, outcome, now);
      if item.nextRetryAt.Some? && item.nextRetryAt.value > now { return false; }
      var active := ItemHasActiveTask(item);
      if active { return false; }
      var preserved := PreserveCompletedResult(id, item);
      if preserved { return true; }
      if item.taskID.Some? && item.taskID.value in db.tasks && db.tasks[item.taskID.value].status == TaskCompleted
         && db.tasks[item.taskID.value].resultNodeID != 0 {
        ApplyBacklink(id, now);
        return true;
      }
      var chosen := SubscriptionForRetry(w, subscriptions, item, 0);
      if chosen.Err? {
        item := item.(status := NeedsAttention, errorMessage := Some(w.describe(chosen.error)), retryReason := None,
                      nextRetryAt := None);
        db.items := db.items[id := item];
        return true;
      }
      RetryItemWithSubscription(id, chosen.value, outcome, now);
      return true;
    }

    /** `retryItemWithSubscription`, past its clock check. */
    method RetryItemWithSubscription(id: Id, subscriptionID: Id, outcome: CreateOutcome, now: int)
      requires id in db.items
      modifies db
      ensures db.State() == RetryWith(w, old(db.State()), id, subscriptionID, outcome, now)
    {
      hide MarkedRetryOrAttention, Enqueue;
      FailedAttempt(w, db.State(), id, subscriptionID, true, outcome);
      var failed := EnqueueItemWithAttempt(id, subscriptionID, true, outcome);
      if failed.Some? {
        MarkItemRetryOrAttention(id, db.items[id], subscriptionID, failed.value, now);
      }
    }

    ghost function RetryEvent(items: Items, outcomes: Id -> CreateOutcome, now: int): Id -> Event {
      (id: Id) => RetryIfDue(id,
                             if id in items then SubscriptionForRetry(w, subscriptions, items[id], 0)
                               else Err(FileNotFound), outcomes(id), now)
    }

    ghost function ProcessEvent(items: Items, subscriptionID: Id, outcomes: Id -> CreateOutcome,
                                now: int): Id -> Event {
      (id: Id) => AutoProcess(id,
                              if id in items then FirstMatch(w, [subscriptionID], subscriptions, items[id]) else None,
                                outcomes(id), now)
    }

    /** `retryDueItems`. It compares the cycle's running count with its own, already reduced limit. The rows that wait
        are taken in the `order` the repository lists them. */
    method RetryDueItems(limit: nat, processed: nat, outcomes: Id -> CreateOutcome, now: int)
      returns (done: nat, ghost taken: set<Id>, ghost order: seq<Id>, ghost events: seq<Event>)
      modifies db
      ensures processed <= done && (done == processed || done <= limit)
      ensures OneEach(events, taken, RetryEvent(old(db.items), outcomes, now))
              && taken <= InStatus(old(db.items), RetryPending)
      ensures done < limit ==> taken == InStatus(old(db.items), RetryPending)
      ensures db.State() == Run(w, old(db.State()), events) && AllAutomatic(events)
      ensures AllChosen(w, subscriptions, old(db.State()), events)
      ensures Lists(order, InStatus(old(db.items), RetryPending))
      ensures InOrder(events, order, RetryEvent(old(db.items), outcomes, now))
      ensures TasksExist(old(db.items), old(db.tasks)) ==>
                && TurnsTaken(old(db.items), old(db.tasks), order, |events|, processed, limit, now)
                && done == processed + DueTurns(old(db.items), old(db.tasks), order[..|events|], now)
    {
      hide Apply, Run, OneEach, SubscriptionForRetry, Sweep, TurnsSoFar, TurnsTaken, Lists, TasksExist, TasksGrow,
           IsDue, InOrder, AllChosen;
      done, taken, events := processed, {}, [];
      RunNothing(w, db.State());
      NoneChosen(w, subscriptions, db.State());
      var listed: set<Id> := set id | id in db.items && db.items[id].status == RetryPending;
      ghost var before, tasks, wanted, event := db.items, db.tasks, InStatus(db.items, RetryPending),
        RetryEvent(db.items, outcomes, now);
      ghost var turns: seq<Id> := [];
      SweepStart(before, wanted, wanted, event);
      FirstTurn(before, tasks, processed, limit, now);
      NoTurnYet(event);
      if limit == 0 {
        SweepShape(before, db.items, wanted, taken, wanted, event, events);
        order := LastTurn(before, tasks, db.tasks, turns, taken, processed, done, limit, now);
        MoreToCome(events, turns, order, event);
        return;
      }
      while listed != {}
        invariant processed <= done && (done == processed || done <= limit)
        invariant Sweep(before, db.items, wanted, taken, listed, event, events) && listed <= wanted
        invariant TurnsSoFar(before, tasks, db.tasks, turns, taken, processed, done, limit, now)
        invariant |turns| == |events| && InOrder(events, turns, event)
        invariant db.State() == Run(w, old(db.State()), events) && AllAutomatic(events)
        invariant AllChosen(w, subscriptions, old(db.State()), events)
        decreases |listed|
      {
        if done >= limit { break; }
        var id :| id in listed;
        done, taken, turns, events :=
          TakeTurn(id, before, tasks, outcomes, now, old(db.State()), wanted, taken, listed, turns, events, processed,
                   done, limit);
        listed := listed - {id};
      }
      SweepShape(before, db.items, wanted, taken, listed, event, events);
      order := LastTurn(before, tasks, db.tasks, turns, taken, processed, done, limit, now);
      MoreToCome(events, turns, order, event);
    }

    /** The turn of one listed row. */
    method TakeTurn(id: Id, ghost before: Items, ghost tasks: Tasks, outcomes: Id -> CreateOutcome, now: int,
                    ghost s: RssState,
                    ghost wanted: set<Id>, ghost taken: set<Id>, ghost listed: set<Id>, ghost turns: seq<Id>,
                    ghost events: seq<Event>, ghost processed: nat, done: nat, ghost limit: nat)
      returns (done': nat, ghost taken': set<Id>, ghost turns': seq<Id>, ghost events': seq<Event>)
      requires id in listed && done < limit && listed <= wanted && wanted == InStatus(before, RetryPending)
      requires Sweep(before, db.items, wanted, taken, listed, RetryEvent(before, outcomes, now), events)
      requires TurnsSoFar(before, tasks, db.tasks, turns, taken, processed, done, limit, now)
      requires |turns| == |events| && InOrder(events, turns, RetryEvent(before, outcomes, now))
      requires db.State() == Run(w, s, events) && AllAutomatic(events) && AllChosen(w, subscriptions, s, events)
      modifies db
      ensures done <= done' <= done + 1 && taken' == taken + {id}
      ensures Sweep(before, db.items, wanted, taken', listed - {id}, RetryEvent(before, outcomes, now), events')
      ensures TurnsSoFar(before, tasks, db.tasks, turns', taken', processed, done', limit, now)
      ensures |turns'| == |events'| && InOrder(events', turns', RetryEvent(before, outcomes, now))
      ensures db.State() == Run(w, s, events') && AllAutomatic(events') && AllChosen(w, subscriptions, s, events')
    {
      hide Apply, Run, OneEach, SubscriptionForRetry, Sweep, TurnsSoFar, TasksExist, TasksGrow, IsDue, InOrder,
           AllAutomatic, AllChosen, Chosen;
      ghost var event := RetryEvent(before, outcomes, now);
      SweepRow(before, db.items, wanted, taken, listed, event, events, id);
      SweepLeft(before, db.items, wanted, taken, listed, event, events, id);
      ghost var now', e := db.State(),
        RetryIfDue(id, SubscriptionForRetry(w, subscriptions, db.items[id], 0), outcomes(id), now);
      assert e == event(id);
      RetryIsChosen(w, subscriptions, db.State(), id, 0, outcomes(id), now);
      var counted := RetryOne(id, outcomes(id), now);
      OthersKeepTheirRows(w, now', e);
      done' := if counted then done + 1 else done;
      SweepTake(before, now'.items, db.items, wanted, taken, listed, event, events, id);
      OneMoreTurn(before, tasks, now'.tasks, db.tasks, turns, taken, processed, done, limit, now, id, counted);
      OneMoreInOrder(events, turns, event, id);
      OneMoreAutomatic(w, s, events, e);
      OneMoreChosen(w, subscriptions, s, events, e);
      taken', turns', events' := taken + {id}, turns + [id], events + [e];
    }

    /** `RunRetryCycle`: reconciliation first, then what is left of the limit for retries. `mid` are the
        tables in between, `order` the rows that wait there as they are listed. The retry loop compares the count of the
        whole cycle with what is left, so what was reconciled is subtracted twice. */
    method RunRetryCycle(requestedLimit: int, outcomes: Id -> CreateOutcome, now: int)
      returns (processed: nat, ghost reconciled: nat, ghost mid: RssState, ghost passes: seq<Pass>,
               ghost order: seq<Id>,
               ghost retries: seq<Event>)
      modifies db
      ensures Reconciliation(w, old(db.State()), mid, passes, now)
      ensures reconciled == |passes[0].settled| + |passes[1].settled| + |passes[2].settled|
      ensures reconciled < (if requestedLimit <= 0 then retryWorkerLimit else requestedLimit) ==>
                passes[0].complete && passes[1].complete && passes[2].complete
      ensures db.State() == Run(w, mid, retries) && AllAutomatic(retries) && AllChosen(w, subscriptions, mid, retries)
      ensures Lists(order, InStatus(mid.items, RetryPending))
              && InOrder(retries, order, RetryEvent(mid.items, outcomes, now))
      ensures
        var limit := if requestedLimit <= 0 then retryWorkerLimit else requestedLimit;
        && reconciled <= processed <= limit
        && processed - reconciled <= (if limit > 2 * reconciled then limit - 2 * reconciled else 0)
        && (reconciled < limit ==>
              && (forall id | id in old(db.items) && Reconciles(old(db.items)[id]) ::
                    Backlink(id, now) in passes[0].events + passes[1].events + passes[2].events)
              && (processed < limit - reconciled
                  ==> OneEach(retries, InStatus(mid.items, RetryPending), RetryEvent(mid.items, outcomes, now))))
      ensures TasksExist(mid.items, mid.tasks) ==>
                var limit := if requestedLimit <= 0 then retryWorkerLimit else requestedLimit;
                && TurnsTaken(mid.items, mid.tasks, order, |retries|, reconciled, limit - reconciled, now)
                && processed == reconciled + DueTurns(mid.items, mid.tasks, order[..|retries|], now)
                && (|retries| == |order| <==>
                      order == [] || 2 * reconciled + DueTurns(mid.items, mid.tasks, order[..|order| - 1], now) < limit)
    {
      hide Run, OneEach, AllAutomatic, AllChosen, Reconciliation, TurnsTaken, TasksExist, Lists, InOrder, Reconciles;
      var limit := if requestedLimit <= 0 then retryWorkerLimit else requestedLimit;
      processed, passes := ReconcileTaskBacklinks(limit, now);
      reconciled, mid, retries := processed, db.State(), [];
      if processed >= limit {
        RunNothing(w, mid);
        NothingIsAutomatic();
        NoneChosen(w, subscriptions, mid);
        order := NobodyListed(mid.items, mid.tasks, reconciled, RetryEvent(mid.items, outcomes, now), now);
      } else {
        ghost var taken;
        processed, taken, order, retries := RetryDueItems(limit - processed, processed, outcomes, now);
      }
      if TasksExist(mid.items, mid.tasks) {
        EveryTurnTaken(mid.items, mid.tasks, order, |retries|, reconciled, limit - reconciled, now);
      }
    }

    /** `OnTaskTerminalStatus`: every item that names the task is brought up to date. */
    method OnTaskTerminalStatus(t: Id, now: int) returns (ghost events: seq<Event>)
      modifies db`items
      ensures OneEach(events, if t in db.tasks
                      && IsTerminal(db.tasks[t].status) then NamingTask(old(db.items), t) else {}, BacklinkEvent(now))
      ensures db.State() == Run(w, old(db.State()), events) && AllAutomatic(events)
    {
      hide Apply, Run, OneEach, Sweep;
      events := [];
      RunNothing(w, db.State());
      NoneYet(BacklinkEvent(now));
      if t !in db.tasks || !IsTerminal(db.tasks[t].status) { return; }
      var listed: set<Id> := set id | id in db.items && db.items[id].taskID == Some(t);
      ghost var taken: set<Id> := {};
      ghost var before, wanted := db.items, NamingTask(db.items, t);
      SweepStart(before, wanted, listed, BacklinkEvent(now));
      while listed != {}
        invariant listed <= wanted
        invariant Sweep(before, db.items, wanted, taken, listed, BacklinkEvent(now), events)
        invariant db.State() == Run(w, old(db.State()), events) && AllAutomatic(events)
        decreases |listed|
      {
        var id :| id in listed;
        SweepRow(before, db.items, wanted, taken, listed, BacklinkEvent(now), events, id);
        ghost var items := db.items;
        var finished := ReconcileOne(id, now);
        SweepTake(before, items, db.items, wanted, taken, listed, BacklinkEvent(now), events, id);
        taken := taken + {id};
        RunOneMore(w, old(db.State()), events, Backlink(id, now));
        events := events + [Backlink(id, now)];
        listed := listed - {id};
      }
      SweepEnd(before, db.items, wanted, taken, BacklinkEvent(now), events);
    }

    /** One feed entry: stored under its key, then processed if the row is open to automatic processing. */
    ghost predicate FeedStep(s: RssState, s': RssState, sourceID: Id, fetched: Fetched, subscriptionIDs: seq<Id>,
                             outcome: CreateOutcome, now: int) {
      exists existing: Option<Id>, id: Id ::
        && HasKey(s.items, sourceID, fetched.dedupKey, existing)
        && id == (if existing.Some? then existing.value else FreshAbove(s.items.Keys))
        && var stored := Apply(w, s, Fetch(existing, sourceID, fetched));
           && id in stored.items
           && s' == if stored.items[id].linkSupported && AllowsAutomaticProcessing(stored.items[id])
                       && !HasActiveTask(stored.tasks, stored.items[id])
                    then Process(w, stored, id, FirstMatch(w, subscriptionIDs, subscriptions, stored.items[id]),
                                 outcome, now)
                    else stored
    }

    /** The entries of a feed, one after the other: `states` are the tables between them. */
    method RefreshSource(sourceID: Id, feed: seq<Fetched>, subscriptionIDs: seq<Id>, outcomes: nat -> CreateOutcome,
                         now: int)
      returns (ghost states: seq<RssState>, ghost events: seq<Event>)
      modifies db
      ensures db.State() == Run(w, old(db.State()), events) && AllAutomatic(events)
      ensures |states| == |feed| + 1 && states[0] == old(db.State()) && states[|feed|] == db.State()
      ensures forall i | 0 <= i < |feed| ::
              FeedStep(states[i], states[i + 1], sourceID, feed[i], subscriptionIDs, outcomes(i), now)
      ensures AllChosen(w, subscriptions, old(db.State()), events)
    {
      hide Run, Process, Refetched, FirstMatch, Apply, FeedStep, AllChosen;
      events := [];
      RunNothing(w, db.State());
      NoneChosen(w, subscriptions, db.State());
      states := [db.State()];
      for i := 0 to |feed|
        invariant db.State() == Run(w, old(db.State()), events) && AllAutomatic(events)
        invariant AllChosen(w, subscriptions, old(db.State()), events)
        invariant |states| == i + 1 && states[0] == old(db.State()) && states[i] == db.State()
        invariant forall k | 0 <= k < i ::
                  FeedStep(states[k], states[k + 1], sourceID, feed[k], subscriptionIDs, outcomes(k), now)
      {
        ghost var more;
        more := TakeFeedEntry(sourceID, feed[i], subscriptionIDs, outcomes(i), now);
        RunConcat(w, old(db.State()), events, more);
        ChosenConcat(w, subscriptions, old(db.State()), events, more);
        events := events + more;
        states := states + [db.State()];
      }
    }

    method TakeFeedEntry(sourceID: Id, fetched: Fetched, subscriptionIDs: seq<Id>, outcome: CreateOutcome, now: int)
      returns (ghost events: seq<Event>)
      modifies db
      ensures db.State() == Run(w, old(db.State()), events) && AllAutomatic(events)
      ensures FeedStep(old(db.State()), db.State(), sourceID, fetched, subscriptionIDs, outcome, now)
      ensures AllChosen(w, subscriptions, old(db.State()), events)
    {
      hide Run, Process, Refetched, FirstMatch, AllChosen, ProcessedBy, OnlyItem;
      ghost var start := db.State();
      RunNothing(w, start);
      NoneChosen(w, subscriptions, start);
      var id, e := UpsertFetchedItem(sourceID, fetched);
      RunOneMore(w, start, [], e);
      OneMoreChosen(w, subscriptions, start, [], e);
      events := [] + [e];
      var active := ItemHasActiveTask(db.items[id]);
      if db.items[id].linkSupported && !active && AllowsAutomaticProcessing(db.items[id]) {
        ghost var step := AutoProcess(id, FirstMatch(w, subscriptionIDs, subscriptions, db.items[id]), outcome, now);
        FirstMatchIsChosen(w, subscriptionIDs, subscriptions, db.State(), id, outcome, now);
        OneMoreChosen(w, subscriptions, start, events, step);
        ProcessItem(id, subscriptionIDs, outcome, now);
        RunOneMore(w, start, events, step);
        events := events + [step];
      }
      assert HasKey(start.items, sourceID, fetched.dedupKey, e.existing);
    }

    /** `RunSubscription` processes only items open to automatic processing. */
    method RunSubscription(subscriptionID: Id, outcomes: Id -> CreateOutcome, now: int)
      returns (failed: Option<Error>, ghost events: seq<Event>)
      modifies db
      ensures db.State() == Run(w, old(db.State()), events) && AllAutomatic(events)
      ensures failed.Some? <==> subscriptionID !in subscriptions
      ensures failed.None? && TasksExist(old(db.items), old(db.tasks)) ==>
                OneEach(events, OpenItems(old(db.items), old(db.tasks), subscriptions[subscriptionID].sourceID),
                        ProcessEvent(old(db.items), subscriptionID, outcomes, now))
      ensures AllChosen(w, subscriptions, old(db.State()), events)
    {
      hide Run, OneEach, Sweep, Apply, AllAutomatic, Subscribed, OpenItems, ProcessEvent, TasksExist, AllChosen;
      events := [];
      RunNothing(w, db.State());
      NoneChosen(w, subscriptions, db.State());
      NothingIsAutomatic();
      if subscriptionID !in subscriptions { return Some(FileNotFound), []; }
      var sourceID := subscriptions[subscriptionID].sourceID;
      var listed: set<Id> := set id | id in db.items && db.items[id].sourceID == sourceID;
      ghost var taken: set<Id> := {};
      ghost var s := db.State();
      ghost var event := ProcessEvent(db.items, subscriptionID, outcomes, now);
      SubscribedStart(s.items, s.tasks, sourceID, listed, event);
      while listed != {}
        invariant Subscribed(s.items, s.tasks, db.items, db.tasks, sourceID, taken, listed, event, events)
        invariant db.State() == Run(w, s, events) && AllAutomatic(events) && AllChosen(w, subscriptions, s, events)
        decreases |listed|
      {
        var id :| id in listed;
        taken, events := RunOnItem(id, subscriptionID, sourceID, outcomes, now, s, taken, listed, events);
        listed := listed - {id};
      }
      SubscribedEnd(s.items, s.tasks, db.items, db.tasks, sourceID, taken, event, events);
      return None, events;
    }

    /** One item of the source: processed if it is open to automatic processing. */
    method RunOnItem(id: Id, subscriptionID: Id, sourceID: Id, outcomes: Id -> CreateOutcome, now: int,
                     ghost s: RssState, ghost taken: set<Id>, ghost listed: set<Id>, ghost events: seq<Event>)
      returns (ghost taken': set<Id>, ghost events': seq<Event>)
      requires id in listed && AllAutomatic(events) && db.State() == Run(w, s, events)
      requires AllChosen(w, subscriptions, s, events)
      requires Subscribed(s.items, s.tasks, db.items, db.tasks, sourceID, taken, listed,
                          ProcessEvent(s.items, subscriptionID, outcomes, now), events)
      modifies db
      ensures Subscribed(s.items, s.tasks, db.items, db.tasks, sourceID, taken', listed - {id},
                         ProcessEvent(s.items, subscriptionID, outcomes, now), events')
      ensures db.State() == Run(w, s, events') && AllAutomatic(events') && AllChosen(w, subscriptions, s, events')
    {
      hide Run, OneEach, Sweep, Apply, AllAutomatic, AllChosen, Chosen, TasksGrow, TasksExist, HasActiveTask,
           AllowsAutomaticProcessing, FirstMatch, Subscribed, IsOpen, OpenItems;
      ghost var event := ProcessEvent(s.items, subscriptionID, outcomes, now);
      taken', events' := taken, events;
      SubscribedRow(s.items, s.tasks, db.items, db.tasks, sourceID, taken, listed, event, events, id);
      var item := db.items[id];
      var active := ItemHasActiveTask(item);
      if !active && item.linkSupported && AllowsAutomaticProcessing(item) {
        ghost var items, tasks := db.items, db.tasks;
        ghost var step := ProcessOpenItem(id, subscriptionID, outcomes(id), now);
        assert step == event(id);
        SubscribedTake(s.items, s.tasks, items, tasks, db.items, db.tasks, sourceID, taken, listed, event, events, id);
        OneMoreAutomatic(w, s, events, step);
        OneMoreChosen(w, subscriptions, s, events, step);
        taken', events' := taken + {id}, events + [step];
      }
    }

    /** One open item, tried against one subscription. */
    method ProcessOpenItem(id: Id, subscriptionID: Id, outcome: CreateOutcome, now: int) returns (ghost step: Event)
      requires id in db.items && db.items[id].linkSupported && AllowsAutomaticProcessing(db.items[id])
      modifies db
      ensures step == AutoProcess(id, FirstMatch(w, [subscriptionID], subscriptions, old(db.items)[id]), outcome, now)
      ensures db.State() == Apply(w, old(db.State()), step)
      ensures db.items.Keys == old(db.items).Keys && forall k | k in db.items && k != id ::
              db.items[k] == old(db.items)[k]
      ensures TasksGrow(old(db.tasks), db.tasks)
      ensures Chosen(w, subscriptions, old(db.State()), step)
    {
      hide Process, FirstMatch, AllowsAutomaticProcessing, ProcessedBy, OnlyItem;
      FirstMatchIsChosen(w, [subscriptionID], subscriptions, db.State(), id, outcome, now);
      ghost var s, chosen := db.State(), FirstMatch(w, [subscriptionID], subscriptions, db.items[id]);
      step := AutoProcess(id, chosen, outcome, now);
      ProcessItem(id, [subscriptionID], outcome, now);
      AutoProcessIsProcess(w, s, id, chosen, outcome, now);
      OthersKeepTheirRows(w, s, step);
      ProcessKeepsTasks(w, s, id, chosen, outcome, now);
    }

    // ---- Commands of the user -----------------------------------------------------------------

    method IgnoreItem(id: Id) returns (r: Result<Item>)
      modifies db
      ensures db.State() == Apply(w, old(db.State()), Ignore(id))
      ensures r.Ok? <==> id in old(db.items) && !HasActiveTask(old(db.tasks), old(db.items)[id])
                         && old(db.items)[id].status != Completed
      ensures r.Ok? ==> r.value == db.items[id]
    {
      if id !in db.items { return Err(FileNotFound); }
      var item := db.items[id];
      var active := ItemHasActiveTask(item);
      if active || item.status == Completed { return Err(TaskInvalidState); }
      item := item.(status := Ignored, errorMessage := None, retryReason := None, nextRetryAt := None);
      db.items := db.items[id := item];
      db.commands := NoteCommand(old(db.State()), id).commands;
      return Ok(item);
    }

    method ReprocessItem(id: Id, subscriptionIDs: seq<Id>, outcome: CreateOutcome, now: int) returns (r: Result<Item>)
      modifies db
      ensures id in old(db.items) ==>
                db.State() == Apply(w, old(db.State()),
                                    Reprocess(id, FirstMatch(w, subscriptionIDs, subscriptions, old(db.items)[id]),
                                              outcome, now))
      ensures id !in old(db.items) ==> db.State() == old(db.State())
      ensures r == if id in old(db.items) && id in db.items then Ok(db.items[id]) else Err(FileNotFound)
      ensures id in old(db.items) && old(db.items)[id].linkSupported && old(db.items)[id].status != Completed
              && !Busy(old(db.tasks), old(db.items)[id]) ==>
                && OnlyItem(NoteCommand(old(db.State()), id), db.State(), id)
                && ProcessedBy(w, subscriptionIDs, subscriptions, NoteCommand(old(db.State()), id), db.State(), id,
                               outcome, now)
    {
      hide Process, FirstMatch, ProcessedBy, OnlyItem;
      if id !in db.items { return Err(FileNotFound); }
      var item := db.items[id];
      if item.status == Completed { return Ok(item); }
      if !item.linkSupported {
        item := item.(status := NeedsAttention, errorMessage := Some("download link unsupported"), retryReason := None,
                      nextRetryAt := None);
        db.items := db.items[id := item];
        db.commands := NoteCommand(old(db.State()), id).commands;
        return Ok(item);
      }
      var active := ItemHasActiveTask(item);
      if active { return Ok(item); }
      db.commands := NoteCommand(old(db.State()), id).commands;
      ProcessKeepsItems(w, db.State(), id, FirstMatch(w, subscriptionIDs, subscriptions, item), outcome, now);
      ProcessItem(id, subscriptionIDs, outcome, now);
      return Ok(db.items[id]);
    }

    method RetryItem(id: Id, requestedSubscription: Id, outcome: CreateOutcome, now: int) returns (r: Result<Item>)
      modifies db
      ensures
        var s := old(db.State());
        if id in s.items && !HasActiveTask(s.tasks, s.items[id]) && s.items[id].status != Completed
           && SubscriptionForRetry(w, subscriptions, s.items[id], requestedSubscription).Ok?
        then db.State() == Apply(w, s,
                                 RetryCommand(id, SubscriptionForRetry(w, subscriptions, s.items[id],
                                                                       requestedSubscription).value, outcome, now))
        else db.State() == s
      ensures
        var s := old(db.State());
        && (id !in s.items ==> r == Err(FileNotFound))
        && (id in s.items ==>
              var chosen := SubscriptionForRetry(w, subscriptions, s.items[id], requestedSubscription);
              if !HasActiveTask(s.tasks, s.items[id]) && s.items[id].status != Completed && chosen.Err? then
                r == Err(chosen.error)
              else id in db.items && r == Ok(db.items[id]))
    {
      hide RetryWith;
      if id !in db.items { return Err(FileNotFound); }
      var item := db.items[id];
      var active := ItemHasActiveTask(item);
      if active || item.status == Completed { return Ok(item); }
      var chosen := SubscriptionForRetry(w, subscriptions, item, requestedSubscription);
      if chosen.Err? { return Err(chosen.error); }
      db.commands := NoteRetry(old(db.State()), id).commands;
      RetryKeepsItems(w, db.State(), id, chosen.value, outcome, now);
      RetryItemWithSubscription(id, chosen.value, outcome, now);
      return Ok(db.items[id]);
    }

    method DownloadItem(id: Id, requestedSubscription: Id, outcome: CreateOutcome) returns (r: Result<Item>)
      modifies db
      ensures
        var s := old(db.State());
        if id in s.items && !HasActiveTask(s.tasks, s.items[id]) && s.items[id].status != Completed
           && SubscriptionForRetry(w, subscriptions, s.items[id], requestedSubscription).Ok?
        then db.State() == Apply(w, s,
                                 DownloadCommand(id, SubscriptionForRetry(w, subscriptions, s.items[id],
                                                                          requestedSubscription).value, outcome))
        else db.State() == s
      ensures
        var s := old(db.State());
        && (id !in s.items ==> r == Err(FileNotFound))
        && (id in s.items ==>
              var chosen := SubscriptionForRetry(w, subscriptions, s.items[id], requestedSubscription);
              if HasActiveTask(s.tasks, s.items[id]) || s.items[id].status == Completed then r == Ok(s.items[id])
              else if chosen.Err? then r == Err(chosen.error)
              else
                var failed := Enqueue(w, NoteCommand(s, id), id, chosen.value, false, outcome).1;
                if failed.Some? then r == Err(failed.value) else id in db.items && r == Ok(db.items[id]))
    {
      hide Enqueue, MarkedManualFailure;
      if id !in db.items { return Err(FileNotFound); }
      var item := db.items[id];
      var active := ItemHasActiveTask(item);
      if active || item.status == Completed { return Ok(item); }
      if !w.isBTLink(item.downloadURL) { return Err(DownloadLinkUnsupported); }
      var subscriptionID := requestedSubscription;
      if subscriptionID == 0 && item.matchedSubscriptionID.Some? { subscriptionID := item.matchedSubscriptionID.value; }
      if subscriptionID == 0 { return Err(PathInvalid); }
      if subscriptionID !in subscriptions { return Err(FileNotFound); }
      if subscriptions[subscriptionID].sourceID != item.sourceID { return Err(PathInvalid); }
      db.commands := NoteCommand(old(db.State()), id).commands;
      EnqueueKeepsItems(w, db.State(), id, subscriptionID, false, outcome);
      var failed := EnqueueItemWithAttempt(id, subscriptionID, false, outcome);
      if failed.Some? {
        MarkItemManualDownloadFailure(id, subscriptionID, failed.value);
        return Err(failed.value);
      }
      return Ok(db.items[id]);
    }

    method MarkItemManualDownloadFailure(id: Id, subscriptionID: Id, error: Error)
      requires id in db.items
      modifies db`items
      ensures db.items == old(db.items)[id := MarkedManualFailure(w, old(db.items)[id], subscriptionID, error)]
    {
      var item := db.items[id];
      if item.maxRetryCount <= 0 { item := item.(maxRetryCount := DEFAULT_MAX_RETRY_COUNT); }
      item := item.(status := NeedsAttention, errorMessage := Some(w.describe(error)));
      if subscriptionID != 0 { item := item.(matchedSubscriptionID := Some(subscriptionID)); }
      item := item.(retryReason := Some(w.classify(error).0), nextRetryAt := None);
      db.items := db.items[id := item];
    }
  }

  /** `existing` is the row with the key, if there is one. */
  ghost predicate HasKey(items: Items, sourceID: Id, dedupKey: string, existing: Option<Id>) {
    match existing
    case Some(id) => id in items && items[id].sourceID == sourceID && items[id].dedupKey == dedupKey
    case None => forall k | k in items :: !(items[k].sourceID == sourceID && items[k].dedupKey == dedupKey)
  }

  /** The entry is stored in row `id`, the one with its key or a new one, and the row is processed if it is open to the
      workers. */
  ghost predicate StoredAndProcessed(service: RSSService, s: RssState, s': RssState, sourceID: Id, fetched: Fetched,
                                     subscriptionIDs: seq<Id>, outcome: CreateOutcome, now: int,
                                     existing: Option<Id>, id: Id)
  {
    && HasKey(s.items, sourceID, fetched.dedupKey, existing)
    && (existing == Some(id) || (existing == None && id !in s.items))
    && var stored := Apply(service.w, s, Fetch(existing, sourceID, fetched));
       && id in stored.items
       && if OpenToWorkers(stored.tasks, stored.items[id]) then
            && OnlyItem(stored, s', id)
            && ProcessedBy(service.w, subscriptionIDs, service.subscriptions, stored, s', id, outcome, now)
          else s' == stored
  }

  lemma FeedStepIsSpelledOut(service: RSSService, s: RssState, s': RssState, sourceID: Id, fetched: Fetched,
                             subscriptionIDs: seq<Id>, outcome: CreateOutcome, now: int)
    requires service.FeedStep(s, s', sourceID, fetched, subscriptionIDs, outcome, now)
    ensures exists existing: Option<Id>, id: Id ::
              StoredAndProcessed(service, s, s', sourceID, fetched, subscriptionIDs, outcome, now, existing, id)
  {
    hide Apply, Process, FirstMatch, OpenToWorkers, AllowsAutomaticProcessing, HasActiveTask, ProcessedBy, OnlyItem;
    var w := service.w;
    var existing: Option<Id>, id: Id :|
      && HasKey(s.items, sourceID, fetched.dedupKey, existing)
      && id == (if existing.Some? then existing.value else FreshAbove(s.items.Keys))
      && var stored := Apply(w, s, Fetch(existing, sourceID, fetched));
         && id in stored.items
         && s' == if stored.items[id].linkSupported && AllowsAutomaticProcessing(stored.items[id])
                     && !HasActiveTask(stored.tasks, stored.items[id])
                  then Process(w, stored, id, FirstMatch(w, subscriptionIDs, service.subscriptions, stored.items[id]),
                               outcome, now)
                  else stored;
    var stored := Apply(w, s, Fetch(existing, sourceID, fetched));
    OpenIff(stored.tasks, stored.items[id]);
    ProcessIsSpelledOut(w, subscriptionIDs, service.subscriptions, stored, id, outcome, now);
    assert StoredAndProcessed(service, s, s', sourceID, fetched, subscriptionIDs, outcome, now, existing, id);
  }

  /** The items a subscription run takes: those of its source that are open to the workers. */
  lemma OpenItemsAre(items: Items, tasks: Tasks, sourceID: Id)
    ensures forall id :: id in OpenItems(items, tasks, sourceID) <==>
              id in items && items[id].sourceID == sourceID && OpenToWorkers(tasks, items[id])
  {
    forall id | id in items { OpenIff(tasks, items[id]); }
  }

  // ---- Which items a cycle takes --------------------------------------------------------------

  function TaskBound(items: Items, status: ItemStatus): set<Id> {
    set id | id in items && items[id].status == status && items[id].taskID.Some?
  }

  /** The rows of a status whose task is finished or gone. */
  function Settling(items: Items, tasks: Tasks, status: ItemStatus): set<Id> {
    set id | id in TaskBound(items, status)
      && (items[id].taskID.value !in tasks || IsTerminal(tasks[items[id].taskID.value].status))
  }

  lemma SettlingRows(items: Items, tasks: Tasks, status: ItemStatus)
    ensures forall id | id in TaskBound(items, status) :: items[id].taskID.Some?
    ensures forall id | id in TaskBound(items, status) ::
              id in Settling(items, tasks, status) <==>
              items[id].taskID.value !in tasks || IsTerminal(tasks[items[id].taskID.value].status)
  {
  }

  /** So many of the rows taken count, besides those before. */
  predicate CountIs(done: nat, processed: nat, taken: set<Id>, settling: set<Id>) {
    done == processed + |taken * settling|
  }

  lemma CountOf(done: nat, processed: nat, taken: set<Id>, settling: set<Id>)
    requires CountIs(done, processed, taken, settling)
    ensures done == processed + |taken * settling|
  {
  }

  lemma NoneCounted(processed: nat, settling: set<Id>)
    ensures CountIs(processed, processed, {}, settling)
  {
    assert {} * settling == {};
  }

  lemma CountOne(taken: set<Id>, settling: set<Id>, id: Id)
    requires id !in taken
    ensures |(taken + {id}) * settling| == |taken * settling| + if id in settling then 1 else 0
  {
    if id in settling {
      assert (taken + {id}) * settling == taken * settling + {id};
    } else {
      assert (taken + {id}) * settling == taken * settling;
    }
  }

  lemma BoundIsInStatus(items: Items, status: ItemStatus)
    ensures TaskBound(items, status) <= InStatus(items, status)
    ensures forall id | id in InStatus(items, status) :: id in TaskBound(items, status) <==> items[id].taskID.Some?
  {
  }

  function NamingTask(items: Items, t: Id): set<Id> {
    set id | id in items && items[id].taskID == Some(t)
  }

  predicate IsOpen(item: Item, tasks: Tasks, sourceID: Id) {
    item.sourceID == sourceID && item.linkSupported && AllowsAutomaticProcessing(item) && !HasActiveTask(tasks, item)
  }

  function OpenItems(items: Items, tasks: Tasks, sourceID: Id): set<Id> {
    set id | id in items && IsOpen(items[id], tasks, sourceID)
  }

  lemma NoneYet(event: Id -> Event)
    ensures OneEach([], {}, event)
  {
  }

  lemma AutoProcessIsProcess(w: Wiring, s: RssState, id: Id, subscription: Option<Id>, outcome: CreateOutcome, now: int)
    requires id in s.items && s.items[id].linkSupported && AllowsAutomaticProcessing(s.items[id])
    ensures Apply(w, s, AutoProcess(id, subscription, outcome, now)) == Process(w, s, id, subscription, outcome, now)
  {
    hide Process;
  }

  /** Half way through the items of a source. */
  ghost predicate Subscribed(before: Items, tasksBefore: Tasks, items: Items, tasks: Tasks, sourceID: Id,
                             taken: set<Id>, listed: set<Id>, event: Id -> Event, events: seq<Event>) {
    && (forall id | id in listed ::
        id in before && before[id].sourceID == sourceID && id in items && items[id] == before[id])
    && TasksGrow(tasksBefore, tasks)
    && (TasksExist(before, tasksBefore) ==>
          Sweep(before, items, OpenItems(before, tasksBefore, sourceID), taken, listed, event, events))
  }

  lemma SubscribedStart(before: Items, tasks: Tasks, sourceID: Id, listed: set<Id>, event: Id -> Event)
    requires listed == set id | id in before && before[id].sourceID == sourceID
    ensures Subscribed(before, tasks, before, tasks, sourceID, {}, listed, event, [])
  {
    hide Sweep;
    SweepStart(before, OpenItems(before, tasks, sourceID), listed, event);
  }

  lemma SubscribedRow(before: Items, tasksBefore: Tasks, items: Items, tasks: Tasks, sourceID: Id,
                      taken: set<Id>, listed: set<Id>, event: Id -> Event, events: seq<Event>, id: Id)
    requires Subscribed(before, tasksBefore, items, tasks, sourceID, taken, listed, event, events) && id in listed
    ensures id in before && id in items && items[id] == before[id] && before[id].sourceID == sourceID
    ensures !(items[id].linkSupported && AllowsAutomaticProcessing(items[id]) && !HasActiveTask(tasks, items[id])) ==>
              Subscribed(before, tasksBefore, items, tasks, sourceID, taken, listed - {id}, event, events)
  {
    hide Sweep;
    if TasksExist(before, tasksBefore) {
      SweepRow(before, items, OpenItems(before, tasksBefore, sourceID), taken, listed, event, events, id);
      SameActivity(before, tasksBefore, tasks, id);
    }
  }

  lemma SubscribedTake(before: Items, tasksBefore: Tasks, items: Items, tasks: Tasks, items': Items, tasks': Tasks,
                       sourceID: Id,
                       taken: set<Id>, listed: set<Id>, event: Id -> Event, events: seq<Event>, id: Id)
    requires Subscribed(before, tasksBefore, items, tasks, sourceID, taken, listed, event, events) && id in listed
    requires id in items && items[id].linkSupported && AllowsAutomaticProcessing(items[id])
             && !HasActiveTask(tasks, items[id])
    requires SubjectOf(event(id)) == id && items'.Keys == items.Keys && TasksGrow(tasks, tasks')
    requires forall k | k in items && k != id :: items'[k] == items[k]
    ensures Subscribed(before, tasksBefore, items', tasks', sourceID, taken + {id}, listed - {id}, event,
                       events + [event(id)])
  {
    hide Sweep;
    if TasksExist(before, tasksBefore) {
      SameActivity(before, tasksBefore, tasks, id);
      SweepTake(before, items, items', OpenItems(before, tasksBefore, sourceID), taken, listed, event, events, id);
    }
  }

  lemma SubscribedEnd(before: Items, tasksBefore: Tasks, items: Items, tasks: Tasks, sourceID: Id,
                      taken: set<Id>, event: Id -> Event, events: seq<Event>)
    requires Subscribed(before, tasksBefore, items, tasks, sourceID, taken, {}, event, events)
    ensures TasksExist(before, tasksBefore) ==> OneEach(events, OpenItems(before, tasksBefore, sourceID), event)
  {
    hide Sweep;
    if TasksExist(before, tasksBefore) {
      SweepEnd(before, items, OpenItems(before, tasksBefore, sourceID), taken, event, events);
    }
  }

  /** The statuses the reconciliation looks at. */
  predicate Reconciles(item: Item) {
    (item.status == Enqueued || item.status == RetryPending || item.status == NeedsAttention) && item.taskID.Some?
  }

  lemma EachIsThere(events: seq<Event>, ids: set<Id>, event: Id -> Event)
    requires OneEach(events, ids, event)
    ensures forall id | id in ids :: event(id) in events
  {
  }

  /** With room left, every row that was to be reconciled had its backlink in one of the passes. */
  lemma PassesReachAll(w: Wiring, s0: RssState, s1: RssState, s2: RssState, s3: RssState, passes: seq<Pass>, now: int)
    requires |passes| == 3 && PassIs(w, s0, s1, Enqueued, passes[0], now)
             && PassIs(w, s1, s2, RetryPending, passes[1], now)
    requires PassIs(w, s2, s3, NeedsAttention, passes[2], now)
    requires passes[0].complete && passes[1].complete && passes[2].complete
    ensures forall id | id in s0.items && Reconciles(s0.items[id]) ::
              Backlink(id, now) in passes[0].events + passes[1].events + passes[2].events
  {
    hide Run, OneEach, AllAutomatic;
    forall i | 0 <= i < 3 ensures forall id | id in passes[i].taken :: Backlink(id, now) in passes[i].events {
      EachIsThere(passes[i].events, passes[i].taken, BacklinkEvent(now));
    }
    forall id | id in s0.items && Reconciles(s0.items[id])
      ensures Backlink(id, now) in passes[0].events + passes[1].events + passes[2].events
    {
      assert id in passes[0].taken || id in passes[1].taken || id in passes[2].taken;
    }
  }

  lemma NoPassIsOne(w: Wiring, s: RssState, status: ItemStatus, now: int)
    ensures PassIs(w, s, s, status, NoPass(TaskBound(s.items, status) == {}), now)
  {
    RunNothing(w, s);
    NothingIsAutomatic();
    NoneYet(BacklinkEvent(now));
    assert {} * Settling(s.items, s.tasks, status) == {};
  }

  /** Without room nobody has a turn. */
  lemma NobodyListed(items: Items, tasks: Tasks, processed: nat, event: Id -> Event, now: int) returns (order: seq<Id>)
    ensures Lists(order, InStatus(items, RetryPending)) && InOrder([], order, event)
    ensures TurnsTaken(items, tasks, order, 0, processed, 0, now) && DueTurns(items, tasks, order[..0], now) == 0
  {
    order := Enumerate(InStatus(items, RetryPending));
  }

  lemma NothingIsAutomatic()
    ensures AllAutomatic([])
  {
  }

  lemma TasksExistInEveryRun(w: Wiring, events: seq<Event>)
    ensures TasksExist(Run(w, Empty(), events).items, Run(w, Empty(), events).tasks)
  {
    EmptyIsOk(w);
    EveryRunKeepsInv(w, Empty(), events);
    var s := Run(w, Empty(), events);
    hide Run;
    forall id | id in s.items && s.items[id].taskID.Some? ensures s.items[id].taskID.value in s.tasks {
      assert ItemOk(s, id);
    }
  }

  /** Processing adds tasks and changes none. */
  lemma ProcessKeepsTasks(w: Wiring, s: RssState, id: Id, subscription: Option<Id>, outcome: CreateOutcome, now: int)
    requires id in s.items
    ensures TasksGrow(s.tasks, Process(w, s, id, subscription, outcome, now).tasks)
  {
    hide MarkedRetryOrAttention;
  }

  lemma RetryKeepsTasks(w: Wiring, s: RssState, id: Id, subscription: Result<Id>, outcome: CreateOutcome, now: int)
    requires id in s.items
    ensures TasksGrow(s.tasks, Apply(w, s, RetryIfDue(id, subscription, outcome, now)).tasks)
  {
    hide MarkedRetryOrAttention, Backlinked;
  }

  // ---- Steps of the loops ---------------------------------------------------------------------

  lemma RunNothing(w: Wiring, s: RssState)
    ensures Run(w, s, []) == s
  {
  }

  lemma LostTask(w: Wiring, s: RssState, id: Id, now: int)
    requires id in s.items && s.items[id].taskID.Some? && s.items[id].taskID.value !in s.tasks
    ensures Apply(w, s, Backlink(id, now))
            == WithItem(s, id, MarkedRetryOrAttention(w, s.items[id],
                 if s.items[id].matchedSubscriptionID.Some? then s.items[id].matchedSubscriptionID.value else 0,
                 Message("download task not found"), now))
  {
  }

  lemma KeysOfBacklink(w: Wiring, s: RssState, id: Id, now: int)
    requires id in s.items
    ensures Apply(w, s, Backlink(id, now)).items.Keys == s.items.Keys
  {
    hide Backlinked, MarkedRetryOrAttention;
  }

  lemma EnqueueKeepsItems(w: Wiring, s: RssState, id: Id, subscriptionID: Id, countRetry: bool, outcome: CreateOutcome)
    requires id in s.items
    ensures
      var s' := Enqueue(w, s, id, subscriptionID, countRetry, outcome).0;
      s'.items.Keys == s.items.Keys && forall k | k in s.items && k != id :: s'.items[k] == s.items[k]
  {
  }

  lemma ProcessKeepsItems(w: Wiring, s: RssState, id: Id, subscription: Option<Id>, outcome: CreateOutcome, now: int)
    requires id in s.items
    ensures
      var s' := Process(w, s, id, subscription, outcome, now);
      s'.items.Keys == s.items.Keys && forall k | k in s.items && k != id :: s'.items[k] == s.items[k]
  {
    hide Enqueue, MarkedRetryOrAttention;
    if subscription.Some? { EnqueueKeepsItems(w, s, id, subscription.value, false, outcome); }
  }

  lemma RetryKeepsItems(w: Wiring, s: RssState, id: Id, subscriptionID: Id, outcome: CreateOutcome, now: int)
    requires id in s.items
    ensures
      var s' := RetryWith(w, s, id, subscriptionID, outcome, now);
      s'.items.Keys == s.items.Keys && forall k | k in s.items && k != id :: s'.items[k] == s.items[k]
  {
    hide Enqueue, MarkedRetryOrAttention;
    EnqueueKeepsItems(w, s, id, subscriptionID, true, outcome);
  }

  /** Events about one item leave the rows of the others alone. */
  lemma OthersKeepTheirRows(w: Wiring, s: RssState, e: Event)
    requires (e.AutoProcess? || e.Backlink? || e.RetryIfDue?) && e.id in s.items
    ensures Apply(w, s, e).items.Keys == s.items.Keys
    ensures forall k | k in s.items && k != e.id :: Apply(w, s, e).items[k] == s.items[k]
  {
    hide Enqueue, MarkedRetryOrAttention, Process, RetryWith, Backlinked;
    match e
    case AutoProcess(id, subscription, outcome, now) => ProcessKeepsItems(w, s, id, subscription, outcome, now);
    case RetryIfDue(id, subscription, outcome, now) =>
      if subscription.Ok? { RetryKeepsItems(w, s, id, subscription.value, outcome, now); }
    case Backlink(id, now) => KeysOfBacklink(w, s, id, now);
  }
}
