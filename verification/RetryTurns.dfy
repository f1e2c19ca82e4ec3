/** Who gets a turn in a retry cycle: the rows that wait, in the order they are listed, and the running count. */
module RetryTurns {
  import opened Common
  import opened RssModel

  function InStatus(items: Items, status: ItemStatus): set<Id> {
    set id | id in items && items[id].status == status
  }

  /** The task an item names is in the table, as in every run. */
  predicate TasksExist(items: Items, tasks: Tasks) {
    forall id | id in items && items[id].taskID.Some? :: items[id].taskID.value in tasks
  }

  predicate TasksGrow(tasks: Tasks, tasks': Tasks) {
    tasks.Keys <= tasks'.Keys && forall t | t in tasks :: tasks'[t] == tasks[t]
  }

  lemma SameActivity(items: Items, tasks: Tasks, tasks': Tasks, id: Id)
    requires TasksExist(items, tasks) && TasksGrow(tasks, tasks') && id in items
    ensures HasActiveTask(tasks', items[id]) == HasActiveTask(tasks, items[id])
  {
  }

  /** The turn of a waiting row counts: its time has come and its task is not active. */
  predicate IsDue(item: Item, tasks: Tasks, now: int) {
    !(item.nextRetryAt.Some? && item.nextRetryAt.value > now) && !HasActiveTask(tasks, item)
  }

  /** How many of these turns count. */
  function DueTurns(items: Items, tasks: Tasks, turns: seq<Id>, now: int): nat {
    if turns == [] then 0
    else
      var last := turns[|turns| - 1];
      DueTurns(items, tasks, turns[..|turns| - 1], now) + if last in items
        && IsDue(items[last], tasks, now) then 1 else 0
  }

  /** A listing of the ids, each once. */
  ghost predicate Lists(order: seq<Id>, ids: set<Id>) {
    && (forall id :: id in order <==> id in ids)
    && (forall i, j | 0 <= i < j < |order| :: order[i] != order[j])
  }

  /** The first `n` rows of the listing had their turn: each found room below the limit, and the loop stopped early only
      because there was none left. */
  ghost predicate TurnsTaken(items: Items, tasks: Tasks, order: seq<Id>, n: nat, processed: nat, limit: nat, now: int) {
    && Lists(order, InStatus(items, RetryPending)) && n <= |order|
    && (forall k | 0 <= k < n :: processed + DueTurns(items, tasks, order[..k], now) < limit)
    && (n < |order| ==> processed + DueTurns(items, tasks, order[..n], now) >= limit)
  }

  lemma {:induction false} MoreTurnsCountMore(items: Items, tasks: Tasks, turns: seq<Id>, n: nat, now: int)
    requires n <= |turns|
    ensures DueTurns(items, tasks, turns[..n], now) <= DueTurns(items, tasks, turns, now)
            <= DueTurns(items, tasks, turns[..n], now) + |turns| - n
  {
    if n < |turns| {
      MoreTurnsCountMore(items, tasks, turns[..|turns| - 1], n, now);
      assert turns[..|turns| - 1][..n] == turns[..n];
    } else {
      assert turns[..n] == turns;
    }
  }

  /** Every waiting row had its turn exactly when those before the last one left room for it. */
  lemma EveryTurnTaken(items: Items, tasks: Tasks, order: seq<Id>, n: nat, processed: nat, limit: nat, now: int)
    requires TurnsTaken(items, tasks, order, n, processed, limit, now)
    ensures n == |order| <==> order == [] || processed + DueTurns(items, tasks, order[..|order| - 1], now) < limit
  {
    if order != [] && n < |order| {
      MoreTurnsCountMore(items, tasks, order[..|order| - 1], n, now);
      assert order[..|order| - 1][..n] == order[..n];
    }
  }

  /** The rows whose turn would count. */
  function DueIn(items: Items, tasks: Tasks, now: int): set<Id> {
    set id | id in InStatus(items, RetryPending) && IsDue(items[id], tasks, now)
  }

  function DueAmong(items: Items, tasks: Tasks, turns: seq<Id>, now: int): set<Id> {
    set id | id in turns && id in items && IsDue(items[id], tasks, now)
  }

  lemma {:induction false} DueTurnsAreDue(items: Items, tasks: Tasks, turns: seq<Id>, now: int)
    requires forall i, j | 0 <= i < j < |turns| :: turns[i] != turns[j]
    ensures DueTurns(items, tasks, turns, now) == |DueAmong(items, tasks, turns, now)|
  {
    hide IsDue;
    if turns != [] {
      var before, last := turns[..|turns| - 1], turns[|turns| - 1];
      DueTurnsAreDue(items, tasks, before, now);
      assert last !in before;
      assert forall id :: id in turns <==> id in before || id == last;
      if last in items && IsDue(items[last], tasks, now) {
        assert DueAmong(items, tasks, turns, now) == DueAmong(items, tasks, before, now) + {last};
      } else {
        assert DueAmong(items, tasks, turns, now) == DueAmong(items, tasks, before, now);
      }
    }
  }

  /** Whatever the order: with room for all rows that are due everybody has a turn, with less than one for all but one
      somebody has none, and without room nobody has one. */
  lemma TurnsInAnyOrder(items: Items, tasks: Tasks, order: seq<Id>, n: nat, processed: nat, limit: nat, now: int)
    requires TurnsTaken(items, tasks, order, n, processed, limit, now)
    ensures processed + |DueIn(items, tasks, now)| < limit ==> n == |order|
    ensures processed + |DueIn(items, tasks, now)| > limit && InStatus(items, RetryPending) != {} ==> n < |order|
    ensures processed >= limit ==> n == 0
  {
    DueTurnsAreDue(items, tasks, order, now);
    assert DueAmong(items, tasks, order, now) == DueIn(items, tasks, now);
    EveryTurnTaken(items, tasks, order, n, processed, limit, now);
    if order != [] { MoreTurnsCountMore(items, tasks, order, |order| - 1, now); }
    assert order == [] ==> InStatus(items, RetryPending) == {};
    assert DueTurns(items, tasks, order[..0], now) == 0;
  }

  // ---- Steps of the loop ----------------------------------------------------------------------

  /** The loop so far: these turns were taken, each with room. */
  ghost predicate TurnsSoFar(items: Items, tasks: Tasks, tasksNow: Tasks, turns: seq<Id>, taken: set<Id>,
                             processed: nat, done: nat, limit: nat, now: int) {
    && Lists(turns, taken) && TasksGrow(tasks, tasksNow)
    && (TasksExist(items, tasks) ==>
          && done == processed + DueTurns(items, tasks, turns, now)
          && forall k | 0 <= k < |turns| :: processed + DueTurns(items, tasks, turns[..k], now) < limit)
  }

  lemma FirstTurn(items: Items, tasks: Tasks, processed: nat, limit: nat, now: int)
    ensures TurnsSoFar(items, tasks, tasks, [], {}, processed, processed, limit, now)
  {
  }

  lemma OneMoreTurn(items: Items, tasks: Tasks, tasksNow: Tasks, tasksNext: Tasks, turns: seq<Id>, taken: set<Id>,
                    processed: nat, done: nat, limit: nat, now: int, id: Id, counted: bool)
    requires TurnsSoFar(items, tasks, tasksNow, turns, taken, processed, done, limit, now) && done < limit
    requires id in items && id !in taken && counted == IsDue(items[id], tasksNow, now) && TasksGrow(tasksNow, tasksNext)
    ensures TurnsSoFar(items, tasks, tasksNext, turns + [id], taken + {id}, processed,
                       if counted then done + 1 else done, limit, now)
  {
    var more := turns + [id];
    assert more[..|turns|] == turns;
    if TasksExist(items, tasks) {
      SameActivity(items, tasks, tasksNow, id);
      forall k | 0 <= k < |more| ensures processed + DueTurns(items, tasks, more[..k], now) < limit {
        if k < |turns| { assert more[..k] == turns[..k]; }
      }
    }
    assert Lists(more, taken + {id});
  }

  /** A listing of a set. */
  lemma {:induction false} Enumerate(ids: set<Id>) returns (order: seq<Id>)
    ensures Lists(order, ids)
    decreases |ids|
  {
    if ids == {} { return []; }
    var id :| id in ids;
    order := Enumerate(ids - {id});
    order := [id] + order;
  }

  /** The loop is over: the rows that had no turn complete the listing. */
  lemma LastTurn(items: Items, tasks: Tasks, tasksNow: Tasks, turns: seq<Id>, taken: set<Id>,
                 processed: nat, done: nat, limit: nat, now: int) returns (order: seq<Id>)
    requires TurnsSoFar(items, tasks, tasksNow, turns, taken, processed, done, limit, now)
    requires taken <= InStatus(items, RetryPending) && (done < limit ==> taken == InStatus(items, RetryPending))
    ensures turns <= order && Lists(order, InStatus(items, RetryPending))
    ensures TasksExist(items, tasks) ==>
              && TurnsTaken(items, tasks, order, |turns|, processed, limit, now)
              && done == processed + DueTurns(items, tasks, turns, now)
  {
    var rest := Enumerate(InStatus(items, RetryPending) - taken);
    order := turns + rest;
    assert order[..|turns|] == turns;
    forall i, j | 0 <= i < j < |order| ensures order[i] != order[j] {
      if i < |turns| <= j { assert order[i] in turns && order[j] in rest; }
      else if i >= |turns| { assert order[i] == rest[i - |turns|] && order[j] == rest[j - |turns|]; }
    }
    forall k | 0 <= k < |turns| ensures order[..k] == turns[..k] {
    }
    if |turns| < |order| { assert rest[0] in rest; }
  }
}
