/** The request handler itself: a deque, a map of active tasks and a flag
    (core/curl_multi_handler.cpp, core/curl_handler.cpp). */
module CurlHandler {
  import opened Options
  import opened Searching
  import opened CurlQueue
  import opened CurlMulti

  /** Finishing one more active task. */
  lemma FinishOneMore(s: State, done: set<Handle>, h: Handle, ctx: nat -> Context, res: Code)
    requires TasksOk(s.tasks, s.multi, s.results) && h in s.tasks && h !in done
    ensures FinishAll(FinishAll(s, done, ctx, res), {h}, ctx, res) == FinishAll(s, done + {h}, ctx, res)
  {
    hide Finished;
    var a, b := FinishAll(s, done, ctx, res), FinishAll(s, done + {h}, ctx, res);
    var c := FinishAll(a, {h}, ctx, res);
    assert c.tasks == b.tasks;
    FinishOneMoreResults(s, done, h, ctx, res);
    assert c.live == b.live && c.multi == b.multi;
  }

  lemma FinishOneMoreResults(s: State, done: set<Handle>, h: Handle, ctx: nat -> Context, res: Code)
    requires TasksOk(s.tasks, s.multi, s.results) && h in s.tasks && h !in done
    ensures FinishAll(FinishAll(s, done, ctx, res), {h}, ctx, res).results == FinishAll(s, done + {h}, ctx, res).results
  {
    hide Finished, HasTask;
    var a := FinishAll(s, done, ctx, res);
    forall u | 0 <= u < |s.results|
      ensures HasTask(s.tasks, done + {h}, u) <==> HasTask(s.tasks, done, u) || u == s.tasks[h].uid
      ensures HasTask(a.tasks, {h}, u) <==> u == s.tasks[h].uid
      ensures !(HasTask(s.tasks, done, u) && u == s.tasks[h].uid)
    {
      OneMoreHasTask(s, done, h, u);
    }
    var b, c := FinishAll(s, done + {h}, ctx, res), FinishAll(a, {h}, ctx, res);
    assert forall u :: 0 <= u < |s.results| ==> c.results[u] == b.results[u];
  }

  lemma OneMoreHasTask(s: State, done: set<Handle>, h: Handle, u: nat)
    requires TasksOk(s.tasks, s.multi, s.results) && h in s.tasks && h !in done
    ensures HasTask(s.tasks, done + {h}, u) <==> HasTask(s.tasks, done, u) || u == s.tasks[h].uid
    ensures HasTask(s.tasks - done, {h}, u) <==> u == s.tasks[h].uid
    ensures !(HasTask(s.tasks, done, u) && u == s.tasks[h].uid)
  {
  }

  lemma NothingAdded(s: State, which: set<Handle>, ctx: nat -> Context, res: Code)
    requires forall h :: h in which ==> h !in s.tasks
    ensures FinishAll(s, which, ctx, res).results == s.results
  {
    forall u | 0 <= u < |s.results|
      ensures FinishAll(s, which, ctx, res).results[u] == s.results[u]
    {
      assert !HasTask(s.tasks, which, u);
    }
  }

  lemma FinishNone(s: State, ctx: nat -> Context, res: Code)
    ensures FinishAll(s, {}, ctx, res) == s
  {
    var r := FinishAll(s, {}, ctx, res);
    NothingAdded(s, {}, ctx, res);
    assert r.tasks == s.tasks && r.live == s.live && r.multi == s.multi;
  }

  lemma FinishOneIs(s: State, h: Handle, ctx: nat -> Context, res: Code)
    requires TasksOk(s.tasks, s.multi, s.results) && h in s.tasks
    ensures var t, r := s.tasks[h], FinishAll(s, {h}, ctx, res);
      && r.tasks == s.tasks - {h} && r.results == Deliver(s.results, t.uid, Finished(ctx(t.uid), res))
      && (r.live == if ctx(t.uid) == Gone then s.live else s.live - {h})
      && (r.multi == if ctx(t.uid) == Gone then s.multi else s.multi - {h})
  {
    hide Finished, HasTask;
    var t := s.tasks[h];
    forall u | 0 <= u < |s.results|
      ensures HasTask(s.tasks, {h}, u) <==> u == t.uid
    {
      OneHasTask(s.tasks, h, u);
    }
    var r, d := FinishAll(s, {h}, ctx, res), Deliver(s.results, t.uid, Finished(ctx(t.uid), res));
    assert forall u :: 0 <= u < |s.results| ==> r.results[u] == d[u];
  }

  lemma OneHasTask(tasks: map<Handle, Task>, h: Handle, u: nat)
    requires h in tasks
    ensures HasTask(tasks, {h}, u) <==> u == tasks[h].uid
  {
  }

  class CurlMultiHandler {
    var queue: seq<Task>
    var tasks: map<Handle, Task>
    var stopped: bool
    /** The results handed to callers so far. */
    var results: seq<seq<Code>>
    /** libcurl's side: the handles in use and those added to it. */
    ghost var live: set<Handle>
    ghost var multi: set<Handle>

    ghost function Seen(): State
      reads this
    {
      State(queue, tasks, live, multi, stopped, results)
    }

    constructor ()
      ensures Seen() == START
    {
      queue, tasks, stopped, results, live, multi := [], map[], false, [], {}, {};
    }

    method Perform(priority: int, id: int)
      modifies this
      ensures Seen() == Submit(old(Seen()), priority, id)
      ensures multiset(queue) ==
        multiset(old(queue)) + if stopped then multiset{} else multiset{Task(|old(results)|, priority, id)}
    {
      var uid := |results|;
      InsertParts(queue, Task(uid, priority, id));
      if stopped {
        results := results + [[Aborted]];
        return;
      }
      results := results + [[]];
      AddTaskToQueue(Task(uid, priority, id));
    }

    method AddTaskToQueue(t: Task)
      modifies `queue
      ensures queue == Insert(old(queue), t)
    {
      var k := 0;
      var inserted := false;
      while k < |queue| && !inserted
        invariant k <= |old(queue)|
        invariant !inserted ==> queue == old(queue) && forall i :: 0 <= i < k ==> queue[i].priority <= t.priority
        invariant inserted ==> queue == Insert(old(queue), t)
        decreases |old(queue)| - k, !inserted
      {
        if t.priority < queue[k].priority {
          PlaceIs(queue, t.priority, k);
          queue := queue[..k] + [t] + queue[k..];
          inserted := true;
        } else {
          k := k + 1;
        }
      }
      if !inserted {
        PlaceIs(queue, t.priority, |queue|);
        assert queue[..|queue|] == queue;
        queue := queue + [t];
      }
    }

    method RaiseTask(id: int)
      modifies `queue
      ensures queue == Raise(old(queue), id)
    {
      var k := 0;
      while k < |queue| && queue[k].id != id
        invariant k <= |queue| && forall i :: 0 <= i < k ==> queue[i].id != id
      {
        k := k + 1;
      }
      FindIs(queue, WithId(id), k);
      if k == |queue| {
        return;
      }
      var t := queue[k];
      queue := queue[..k] + queue[k + 1..];
      AddTaskToQueue(t);
    }

    method SetResult(u: nat, c: Code)
      requires u < |results|
      modifies `results
      ensures results == Deliver(old(results), u, c)
    {
      results := results[u := results[u] + [c]];
    }

    /** Admits tasks while there is room or they are urgent. */
    method AddTask(fate: nat -> Fate)
      requires Inv(Seen()) && Fresh(Seen(), fate)
      modifies `queue, `tasks, `results, `live, `multi
      ensures Seen() == Pump(old(Seen()), fate)
    {
      hide Inv, Admit;
      while queue != [] && (|tasks| < MAX_EASY_COUNT || queue[0].priority <= PROTOCOL)
        invariant Inv(Seen()) && Fresh(Seen(), fate)
        invariant Pump(Seen(), fate) == Pump(old(Seen()), fate) && stopped == old(stopped)
        decreases |queue|
      {
        AdmitFirstInv(Seen(), fate);
        FirstKnown(Seen());
        var t := queue[0];
        queue := queue[1..];
        AdmitTask(t, fate(t.uid));
      }
    }

    static lemma FirstKnown(s: State)
      requires Inv(s) && s.queue != []
      ensures s.queue[0].uid < |s.results|
    {
      assert s.queue[0] in multiset(s.queue);
    }

    method AdmitTask(t: Task, f: Fate)
      requires t.uid < |results|
      modifies `tasks, `results, `live, `multi
      ensures Seen() == Admit(old(Seen()), t, f)
    {
      var easy := InitHandler(t, f);
      if easy.Some? {
        tasks := tasks[easy.value := t];
        ExecuteMulti(t, easy.value, f);
      }
    }

    method InitHandler(t: Task, f: Fate) returns (easy: Option<Handle>)
      requires t.uid < |results|
      modifies `results, `live
      ensures easy == if Refusal(f).Some? then None else Some(f.handle)
      ensures results == if Refusal(f).Some? then Deliver(old(results), t.uid, Refusal(f).value) else old(results)
      ensures live == if Refusal(f).Some? then old(live) else old(live) + {f.handle}
      ensures easy.Some? <==> f.first == Running && f.initOk
      ensures results[t.uid] == old(results[t.uid]) +
        if f.first == Stopped then [Aborted] else if f.first == Gone || !f.initOk then [FailedInit] else []
    {
      if f.first == Gone {
        SetResult(t.uid, FailedInit);
        return None;
      }
      if f.first == Stopped {
        SetResult(t.uid, Aborted);
        return None;
      }
      if !f.initOk {
        SetResult(t.uid, FailedInit);
        return None;
      }
      live := live + {f.handle};
      return Some(f.handle);
    }

    method ExecuteMulti(t: Task, easy: Handle, f: Fate)
      requires t.uid < |results|
      modifies `results, `live, `multi
      ensures results == if Failure(f).Some? then Deliver(old(results), t.uid, Failure(f).value) else old(results)
      ensures live == if CleanedUp(f) then old(live) - {easy} else old(live)
      ensures multi == if Failure(f).None? then old(multi) + {easy} else old(multi)
      ensures results[t.uid] == old(results[t.uid]) +
        if f.second == Stopped then [Aborted] else if f.second == Gone || !f.addOk then [FailedInit] else []
    {
      if f.second == Gone {
        SetResult(t.uid, FailedInit);
        return;
      }
      if f.second == Stopped {
        SetResult(t.uid, Aborted);
        return;
      }
      if !f.addOk {
        live := live - {easy};
        SetResult(t.uid, FailedInit);
        return;
      }
      multi := multi + {easy};
    }

    /** The task is already out of the map; its context decides about result and handle. */
    method FinishMulti(t: Task, easy: Handle, c: Context, res: Code)
      requires t.uid < |results|
      modifies `results, `live, `multi
      ensures results == Deliver(old(results), t.uid, Finished(c, res))
      ensures results[t.uid] == old(results[t.uid]) +
        if c == Running then [res] else if c == Stopped then [Aborted] else [FailedInit]
      ensures live == if c == Gone then old(live) else old(live) - {easy}
      ensures multi == if c == Gone then old(multi) else old(multi) - {easy}
    {
      if c == Gone {
        SetResult(t.uid, FailedInit);
        return;
      }
      var code := res;
      if c == Stopped {
        code := Aborted;
      }
      live := live - {easy};
      multi := multi - {easy};
      SetResult(t.uid, code);
    }

    /** One message of libcurl. */
    method CheckDone(easy: Handle, ctx: nat -> Context, res: Code)
      requires Inv(Seen())
      modifies `tasks, `results, `live, `multi
      ensures Seen() == FinishAll(old(Seen()), {easy}, ctx, res)
      ensures easy in old(tasks) && ctx(old(tasks)[easy].uid) == Running ==>
        var u := old(tasks)[easy].uid;
        u < |old(results)| == |results| && results[u] == old(results)[u] + [res]
    {
      hide FinishAll, Finished, Queued, Active;
      if easy in tasks {
        FinishOneIs(Seen(), easy, ctx, res);
        FinishAllRest(Seen(), {easy}, ctx, res);
        var t := tasks[easy];
        tasks := tasks - {easy};
        FinishMulti(t, easy, ctx(t.uid), res);
      } else {
        FinishAbsent(Seen(), easy, ctx, res);
      }
    }

    static lemma FinishAllRest(s: State, which: set<Handle>, ctx: nat -> Context, res: Code)
      ensures var r := FinishAll(s, which, ctx, res);
        r == State(s.queue, r.tasks, r.live, r.multi, s.stopped, r.results)
    {
    }

    static lemma FinishAbsent(s: State, h: Handle, ctx: nat -> Context, res: Code)
      requires h !in s.tasks
      ensures FinishAll(s, {h}, ctx, res) == s
    {
      var r := FinishAll(s, {h}, ctx, res);
      NothingAdded(s, {h}, ctx, res);
      assert r.tasks == s.tasks && r.live == s.live && r.multi == s.multi;
    }

    /** The loops over the map: finishes the chosen tasks, in whatever order. */
    method FinishChosen(which: set<Handle>, ctx: nat -> Context)
      requires Inv(Seen()) && which <= tasks.Keys
      modifies `tasks, `results, `live, `multi
      ensures Seen() == FinishAll(old(Seen()), which, ctx, Aborted) && Inv(Seen())
    {
      hide FinishAll, Finished, Queued, Active, QueueOk, TasksOk, Apart;
      ghost var s := Seen();
      ghost var done := {};
      FinishNone(s, ctx, Aborted);
      var left := which;
      while left != {}
        invariant left <= tasks.Keys && done + left == which && done !! left
        invariant Seen() == FinishAll(s, done, ctx, Aborted) && Inv(Seen())
      {
        var h :| h in left;
        FinishOneMore(s, done, h, ctx, Aborted);
        FinishAllInv(Seen(), {h}, ctx, Aborted);
        FinishOneTasks(Seen(), h, ctx);
        CheckDone(h, ctx, Aborted);
        left := left - {h};
        done := done + {h};
      }
    }

    static lemma FinishOneTasks(s: State, h: Handle, ctx: nat -> Context)
      ensures FinishAll(s, {h}, ctx, Aborted).tasks == s.tasks - {h}
    {
    }

    method CancelTasks(ctx: nat -> Context)
      requires Inv(Seen())
      modifies `queue, `tasks, `results, `live, `multi
      ensures Seen() == Cancel(old(Seen()), ctx) && Inv(Seen())
    {
      hide Inv, FinishAll;
      CancelQueueInv(Seen());
      InvQueue(Seen());
      while queue != []
        invariant CancelQueue(Seen()) == CancelQueue(old(Seen()))
        invariant QueueOk(multiset(queue), results) && tasks == old(tasks)
        decreases |queue|
      {
        QueuePops();
        SetResult(queue[0].uid, Aborted);
        queue := queue[1..];
      }
      FinishChosen(tasks.Keys, ctx);
    }

    static lemma InvQueue(s: State)
      requires Inv(s)
      ensures QueueOk(multiset(s.queue), s.results)
    {
    }

    lemma QueuePops()
      requires queue != [] && QueueOk(multiset(queue), results)
      ensures queue[0].uid < |results|
      ensures QueueOk(multiset(queue[1..]), Deliver(results, queue[0].uid, Aborted))
    {
      PopQueue(queue, results);
    }

    method ProcessStoppedTasks(asked: set<nat>, ctx: nat -> Context)
      requires Inv(Seen())
      modifies `tasks, `results, `live, `multi
      ensures Seen() == ProcessStopped(old(Seen()), asked, ctx) && Inv(Seen())
    {
      hide Inv, FinishAll;
      FinishChosen((set h | h in tasks && tasks[h].uid in asked), ctx);
    }
  }
}
