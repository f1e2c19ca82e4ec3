/** A retry cycle in which there is room for the row that is due, and it has no turn. */
module RetryCycles {
  import opened Common
  import opened RssModel
  import opened RssService
  import opened RssTheory
  import opened RetryTurns

  /** Item 1 needs attention though its download is done; item 2 waits for a retry that is due. */
  function OneSettledOneDue(): RssState {
    RssState(map[1 := Item(1, "a", "", "", true, NeedsAttention, Some(1), 0, 0, 3, None, None, None, None),
                 2 := Item(1, "b", "", "", true, RetryPending, None, 0, 0, 3, None, None, None, None)],
             map[1 := Task(TaskCompleted, 7, true, false, None)], map[1 := {1}], map[])
  }

  /** A pass over a status nothing is in does nothing. */
  lemma EmptyPass(w: Wiring, s: RssState, s': RssState, status: ItemStatus, pass: Pass, now: int)
    requires PassIs(w, s, s', status, pass, now) && TaskBound(s.items, status) == {}
    ensures s' == s && pass.settled == {}
  {
    assert pass.taken == {} && pass.events == [];
    RunNothing(w, s);
  }

  lemma TasksAfterBacklink(w: Wiring, s: RssState, now: int)
    requires 1 in s.items && s.items[1].taskID == Some(1) && 1 in s.tasks && s.tasks[1].status == TaskCompleted
    requires s.tasks[1].resultNodeID != 0
    ensures
      var s' := Apply(w, s, Backlink(1, now));
      s' == WithItem(s, 1, s'.items[1]) && 1 in s'.items && s'.items[1].status == Completed
        && s'.items[1].taskID == Some(1)
  {
    hide MarkedRetryOrAttention;
  }

  lemma OnlyItemOne(s: RssState)
    requires s == OneSettledOneDue()
    ensures TaskBound(s.items, NeedsAttention) == {1} && Settling(s.items, s.tasks, NeedsAttention) == {1}
    ensures TaskBound(s.items, Enqueued) == {} && TaskBound(s.items, RetryPending) == {}
  {
  }

  lemma LastPass(w: Wiring, s': RssState, pass: Pass, now: int)
    requires PassIs(w, OneSettledOneDue(), s', NeedsAttention, pass, now)
    ensures |pass.settled| <= 1
    ensures pass.complete ==>
              |pass.settled| == 1 && s' == Apply(w, OneSettledOneDue(), Backlink(1, now))
  {
    var s := OneSettledOneDue();
    OnlyItemOne(s);
    hide Apply, AllAutomatic, TaskBound, Settling, OneSettledOneDue, Run;
    if pass.complete {
      assert pass.settled == {1};
      assert BacklinkEvent(now)(1) == Backlink(1, now);
      assert |pass.events| == 1 && pass.events[0] == Backlink(1, now);
      assert pass.events == [] + [Backlink(1, now)];
      RunOneMore(w, s, [], Backlink(1, now));
      RunNothing(w, s);
    } else {
      assert pass.taken == {} && pass.settled == {};
    }
  }

  lemma AfterBacklink(w: Wiring, now: int)
    ensures
      var s' := Apply(w, OneSettledOneDue(), Backlink(1, now));
      && InStatus(s'.items, RetryPending) == {2} && TasksExist(s'.items, s'.tasks)
      && 2 in s'.items && IsDue(s'.items[2], s'.tasks, now)
  {
    TasksAfterBacklink(w, OneSettledOneDue(), now);
    hide Apply;
  }

  /** Whatever a cycle of limit 2 does on these tables by its contract: it reconciles item 1, and though one place is
      left item 2, which is due, has no turn. */
  lemma SettledRowTakesTwoPlaces(w: Wiring, mid: RssState, passes: seq<Pass>, order: seq<Id>, reconciled: nat, n: nat,
                                 now: int)
    requires Reconciliation(w, OneSettledOneDue(), mid, passes, now)
    requires reconciled == |passes[0].settled| + |passes[1].settled| + |passes[2].settled| <= 2
    requires reconciled < 2 ==> passes[0].complete && passes[1].complete && passes[2].complete
    requires TasksExist(mid.items, mid.tasks)
             ==> TurnsTaken(mid.items, mid.tasks, order, n, reconciled, 2 - reconciled, now)
    ensures reconciled == 1 && n == 0 && order == [2] && IsDue(mid.items[2], mid.tasks, now)
  {
    var s := OneSettledOneDue();
    OnlyItemOne(s);
    AfterBacklink(w, now);
    hide PassIs, TurnsTaken, TasksExist, IsDue, Apply, OneSettledOneDue;
    var s1, s2 :| PassIs(w, s, s1, Enqueued, passes[0], now) && PassIs(w, s1, s2, RetryPending, passes[1], now)
                  && PassIs(w, s2, mid, NeedsAttention, passes[2], now);
    EmptyPass(w, s, s1, Enqueued, passes[0], now);
    EmptyPass(w, s1, s2, RetryPending, passes[1], now);
    LastPass(w, mid, passes[2], now);
    EveryTurnTaken(mid.items, mid.tasks, order, n, reconciled, 2 - reconciled, now);
    ListOfOne(mid.items, mid.tasks, order, n, reconciled, 2 - reconciled, now, 2);
  }

  lemma ListOfOne(items: Items, tasks: Tasks, order: seq<Id>, n: nat, processed: nat, limit: nat, now: int, id: Id)
    requires TurnsTaken(items, tasks, order, n, processed, limit, now) && InStatus(items, RetryPending) == {id}
    ensures order == [id] && n <= 1
  {
    assert id in order;
    assert id in order by { assert id in InStatus(items, RetryPending); }
    forall k | 0 <= k < |order| ensures order[k] == id {
      assert order[k] in order;
      assert order[k] in InStatus(items, RetryPending);
    }
    assert order[0] == order[|order| - 1];
  }

  /** The service itself, on these tables. */
  method DueItemLeftOut(w: Wiring, subscriptions: map<Id, Subscription>, outcomes: Id -> CreateOutcome, now: int)
    returns (processed: nat, ghost retries: seq<Event>)
    ensures processed == 1 && retries == []
  {
    hide Reconciliation, TurnsTaken, TasksExist, IsDue, InOrder, Run, AllAutomatic, OneEach, Lists, Reconciles,
         DueTurns;
    var db := new RssTables();
    var s := OneSettledOneDue();
    db.items, db.tasks, db.created, db.commands := s.items, s.tasks, s.created, s.commands;
    assert db.State() == s;
    var service := new RSSService(db, w, subscriptions, 2);
    ghost var reconciled, mid, passes, order;
    processed, reconciled, mid, passes, order, retries := service.RunRetryCycle(2, outcomes, now);
    SettledRowTakesTwoPlaces(w, mid, passes, order, reconciled, |retries|, now);
  }
}
