/** Requests run by one thread through libcurl's multi interface, as atomic steps
    (core/curl_multi_handler.cpp, core/curl_handler.cpp). */
module CurlMulti {
  import opened Options
  import opened CurlQueue

  const MAX_EASY_COUNT := 10

  type Handle = nat

  datatype Code = Ok | Aborted | FailedInit | Other(code: int)

  /** A task's context: already destroyed, asked to stop, or neither. */
  datatype Context = Gone | Stopped | Running

  /** What the surroundings answer while a task is admitted: its context when the handle
      is made and again when it is added, whether each works, and the new handle. */
  datatype Fate = Fate(first: Context, initOk: bool, handle: Handle, second: Context, addOk: bool)

  /** `init_handler`: the result delivered when there is no handle. */
  function Refusal(f: Fate): Option<Code> {
    match f.first
    case Gone => Some(FailedInit)
    case Stopped => Some(Aborted)
    case Running => if f.initOk then None else Some(FailedInit)
  }

  /** `execute_multi`: the result delivered when the handle is not added. */
  function Failure(f: Fate): Option<Code> {
    match f.second
    case Gone => Some(FailedInit)
    case Stopped => Some(Aborted)
    case Running => if f.addOk then None else Some(FailedInit)
  }

  /** A failed addition cleans the handle up, but an early return does not. */
  predicate CleanedUp(f: Fate) { f.second == Running && !f.addOk }

  /** `live` are the handles in use, `multi` those added to libcurl; `results[u]`
      are the results delivered to submission `u`. */
  datatype State = State(
    queue: seq<Task>,
    tasks: map<Handle, Task>,
    live: set<Handle>,
    multi: set<Handle>,
    stopped: bool,
    results: seq<seq<Code>>)

  const START := State([], map[], {}, {}, false, [])

  // ----- Steps -----

  function Deliver(results: seq<seq<Code>>, u: nat, c: Code): (r: seq<seq<Code>>)
    ensures |r| == |results|
  {
    if u < |results| then results[u := results[u] + [c]] else results
  }

  /** `perform` and `perform_async`. */
  function Submit(s: State, priority: int, id: int): State {
    if s.stopped then s.(results := s.results + [[Aborted]])
    else s.(queue := Insert(s.queue, Task(|s.results|, priority, id)), results := s.results + [[]])
  }

  /** One task taken from the queue. */
  function Admit(s: State, t: Task, f: Fate): State {
    if Refusal(f).Some? then s.(results := Deliver(s.results, t.uid, Refusal(f).value))
    else
      var a := s.(tasks := s.tasks[f.handle := t], live := s.live + {f.handle});
      if Failure(f).None? then a.(multi := s.multi + {f.handle})
      else
        a.(results := Deliver(s.results, t.uid, Failure(f).value),
           live := if CleanedUp(f) then a.live - {f.handle} else a.live)
  }

  predicate MayAdmit(s: State) {
    s.queue != [] && (|s.tasks| < MAX_EASY_COUNT || s.queue[0].priority <= PROTOCOL)
  }

  function AdmitFirst(s: State, fate: nat -> Fate): State
    requires s.queue != []
  {
    Admit(s.(queue := s.queue[1..]), s.queue[0], fate(s.queue[0].uid))
  }

  /** The loop of `add_task`. */
  function Pump(s: State, fate: nat -> Fate): State
    decreases |s.queue|
  {
    if MayAdmit(s) then Pump(AdmitFirst(s, fate), fate) else s
  }

  /** libcurl makes no handle that is still in use. */
  predicate Fresh(s: State, fate: nat -> Fate)
    decreases |s.queue|
  {
    MayAdmit(s) ==>
      var f := fate(s.queue[0].uid);
      (Refusal(f).None? ==> f.handle !in s.live) && Fresh(AdmitFirst(s, fate), fate)
  }

  /** The handles that `finish_multi` cleans up: those whose context is still there. */
  function Cleaned(tasks: map<Handle, Task>, which: set<Handle>, ctx: nat -> Context): set<Handle> {
    set h | h in which && h in tasks && ctx(tasks[h].uid) != Gone
  }

  /** `finish_multi` for some of the active tasks, which leave the map. */
  function FinishAll(s: State, which: set<Handle>, ctx: nat -> Context, res: Code): State {
    var closed := Cleaned(s.tasks, which, ctx);
    s.(tasks := s.tasks - which,
       results := seq(|s.results|, u requires 0 <= u < |s.results| =>
         s.results[u] + if HasTask(s.tasks, which, u) then [Finished(ctx(u), res)] else []),
       live := s.live - closed, multi := s.multi - closed)
  }

  predicate HasTask(tasks: map<Handle, Task>, which: set<Handle>, u: nat) {
    exists h :: h in which && h in tasks && tasks[h].uid == u
  }

  function Finished(c: Context, res: Code): Code {
    match c
    case Gone => FailedInit
    case Stopped => Aborted
    case Running => res
  }

  function CancelQueue(s: State): State
    decreases |s.queue|
  {
    if s.queue == [] then s
    else CancelQueue(s.(queue := s.queue[1..], results := Deliver(s.results, s.queue[0].uid, Aborted)))
  }

  /** `cancel_tasks`. */
  function Cancel(s: State, ctx: nat -> Context): State {
    FinishAll(CancelQueue(s), s.tasks.Keys, ctx, Aborted)
  }

  /** `process_stopped_tasks`: `stopped` are the submissions whose contexts say so. */
  function ProcessStopped(s: State, stopped: set<nat>, ctx: nat -> Context): State {
    FinishAll(s, (set h | h in s.tasks && s.tasks[h].uid in stopped), ctx, Aborted)
  }

  // ----- Where a submission is -----

  predicate Queued(s: State, u: nat) { exists t :: t in multiset(s.queue) && t.uid == u }

  predicate Active(s: State, u: nat) { exists h :: h in s.tasks && s.tasks[h].uid == u }

  /** An active task that already has a result: its addition to libcurl failed. */
  predicate Zombie(s: State, u: nat) { u < |s.results| && Active(s, u) && s.results[u] != [] }

  /** Queued submissions have no result, and each is queued once. */
  predicate QueueOk(queue: multiset<Task>, results: seq<seq<Code>>) {
    && (forall t :: t in queue ==> queue[t] == 1 && t.uid < |results| && results[t.uid] == [])
    && (forall t, v :: t in queue && v in queue && t != v ==> t.uid != v.uid)
  }

  /** Active submissions have at most one result, and none exactly when libcurl has
      their handle; each is active once. */
  predicate TasksOk(tasks: map<Handle, Task>, multi: set<Handle>, results: seq<seq<Code>>) {
    && (forall h :: h in tasks ==>
         var u := tasks[h].uid; u < |results| && |results[u]| <= 1 && (h in multi <==> results[u] == []))
    && (forall h, k :: h in tasks && k in tasks && h != k ==> tasks[h].uid != tasks[k].uid)
  }

  predicate Apart(queue: multiset<Task>, tasks: map<Handle, Task>) {
    forall t, h :: t in queue && h in tasks ==> t.uid != tasks[h].uid
  }

  predicate Accounted(s: State, u: nat)
    requires u < |s.results|
  {
    |s.results[u]| <= 2 && (s.results[u] == [] ==> Queued(s, u) || Active(s, u))
  }

  /** Every submission is queued without a result, active with none or (as a zombie)
      one, or completed with one or two. */
  predicate Inv(s: State) {
    && QueueOk(multiset(s.queue), s.results) && TasksOk(s.tasks, s.multi, s.results)
    && Apart(multiset(s.queue), s.tasks) && s.multi <= s.live
    && forall u :: 0 <= u < |s.results| ==> Accounted(s, u)
  }

  // ----- The invariant -----

  lemma QueueGrows(queue: multiset<Task>, results: seq<seq<Code>>, t: Task)
    requires QueueOk(queue, results) && t.uid == |results|
    ensures QueueOk(queue + multiset{t}, results + [[]])
  {
    assert t !in queue;
  }

  lemma ResultsGrow(s: State, first: seq<Code>)
    requires QueueOk(multiset(s.queue), s.results) && TasksOk(s.tasks, s.multi, s.results)
    ensures QueueOk(multiset(s.queue), s.results + [first]) && TasksOk(s.tasks, s.multi, s.results + [first])
  {
  }

  lemma NewIsApart(queue: multiset<Task>, tasks: map<Handle, Task>, t: Task)
    requires Apart(queue, tasks) && forall h :: h in tasks ==> tasks[h].uid != t.uid
    ensures Apart(queue + multiset{t}, tasks)
  {
  }

  lemma SubmitInv(s: State, priority: int, id: int)
    requires Inv(s)
    ensures Inv(Submit(s, priority, id))
  {
    hide Insert, Queued, Active, Apart, QueueOk;
    var t := Task(|s.results|, priority, id);
    var r := Submit(s, priority, id);
    InsertParts(s.queue, t);
    if s.stopped {
      ResultsGrow(s, [Aborted]);
    } else {
      ResultsGrow(s, []);
      QueueGrows(multiset(s.queue), s.results, t);
      NewIsApart(multiset(s.queue), s.tasks, t);
    }
    hide TasksOk;
    forall u | 0 <= u < |r.results|
      ensures Accounted(r, u)
    {
      if u < |s.results| {
        assert Accounted(s, u);
        StillQueued(s, r, u);
        StillActive(s, r, u);
      } else if !s.stopped {
        assert t in multiset(r.queue) && t.uid == u;
        IsQueued(r, t);
      }
    }
  }

  lemma StillQueued(s: State, r: State, u: nat)
    requires forall t :: t in multiset(s.queue) && t.uid == u ==> t in multiset(r.queue)
    ensures Queued(s, u) ==> Queued(r, u)
  {
  }

  lemma StillActive(s: State, r: State, u: nat)
    requires forall h :: h in s.tasks && s.tasks[h].uid == u ==> h in r.tasks && r.tasks[h].uid == u
    ensures Active(s, u) ==> Active(r, u)
  {
  }

  lemma IsQueued(s: State, t: Task)
    requires t in multiset(s.queue)
    ensures Queued(s, t.uid)
  {
  }

  lemma RaiseInv(s: State, id: int)
    requires Inv(s) && Sorted(s.queue)
    ensures Inv(s.(queue := Raise(s.queue, id)))
  {
    hide Raise, QueueOk, TasksOk, Apart, Active, Sorted;
    RaiseKeepsQueue(s.queue, id);
    var r := s.(queue := Raise(s.queue, id));
    forall u | 0 <= u < |r.results|
      ensures Accounted(r, u)
    {
      assert Accounted(s, u);
      StillActive(s, r, u);
    }
  }

  lemma QueueShrinks(q: seq<Task>, tasks: map<Handle, Task>, results: seq<seq<Code>>, c: Code)
    requires q != [] && QueueOk(multiset(q), results) && Apart(multiset(q), tasks)
    ensures var t, rest := q[0], multiset(q[1..]);
      && t.uid < |results| && results[t.uid] == [] && multiset(q) == rest + multiset{t}
      && QueueOk(rest, results) && QueueOk(rest, Deliver(results, t.uid, c)) && Apart(rest, tasks)
      && (forall v :: v in rest ==> v.uid != t.uid) && (forall h :: h in tasks ==> tasks[h].uid != t.uid)
  {
    var t := q[0];
    assert q == [t] + q[1..];
    assert t in multiset(q);
    assert multiset(q)[t] == multiset(q[1..])[t] + 1;
    assert forall v :: v in multiset(q[1..]) ==> v in multiset(q) && multiset(q[1..])[v] <= multiset(q)[v];
  }

  lemma TaskAdded(tasks: map<Handle, Task>, multi: set<Handle>, results: seq<seq<Code>>, h: Handle, t: Task, c: Code)
    requires TasksOk(tasks, multi, results) && t.uid < |results| && results[t.uid] == []
    requires (forall k :: k in tasks ==> tasks[k].uid != t.uid)
    ensures TasksOk(tasks, multi, Deliver(results, t.uid, c))
    ensures h !in multi ==> TasksOk(tasks[h := t], multi + {h}, results)
    ensures h !in multi ==> TasksOk(tasks[h := t], multi, Deliver(results, t.uid, c))
  {
  }

  lemma AddedIsApart(queue: multiset<Task>, tasks: map<Handle, Task>, h: Handle, t: Task)
    requires Apart(queue, tasks) && forall v :: v in queue ==> v.uid != t.uid
    ensures Apart(queue, tasks[h := t])
  {
  }

  lemma AdmitFirstInv(s: State, fate: nat -> Fate)
    requires Inv(s) && s.queue != []
    requires var f := fate(s.queue[0].uid); Refusal(f).None? ==> f.handle !in s.live
    ensures Inv(AdmitFirst(s, fate))
  {
    hide Queued, Active, TasksOk, QueueOk, Apart, Deliver, Accounted;
    var t := s.queue[0];
    var f := fate(t.uid);
    var c := if Refusal(f).Some? then Refusal(f).value else if Failure(f).Some? then Failure(f).value else Ok;
    QueueShrinks(s.queue, s.tasks, s.results, c);
    TaskAdded(s.tasks, s.multi, s.results, f.handle, t, c);
    AddedIsApart(multiset(s.queue[1..]), s.tasks, f.handle, t);
    AdmitFirstAccounted(s, fate);
  }

  /** What one admission changes. */
  lemma AdmitFirstChanges(s: State, fate: nat -> Fate)
    requires s.queue != []
    ensures var t, r := s.queue[0], AdmitFirst(s, fate); var h := fate(t.uid).handle;
      && r.queue == s.queue[1..] && |r.results| == |s.results| && r.stopped == s.stopped
      && (r.tasks == s.tasks || (r.tasks == s.tasks[h := t] && Refusal(fate(t.uid)).None?))
      && (forall u :: 0 <= u < |s.results| && u != t.uid ==> r.results[u] == s.results[u])
      && (t.uid < |s.results| ==>
           || (r.results[t.uid] == s.results[t.uid] && r.tasks == s.tasks[h := t])
           || |r.results[t.uid]| == |s.results[t.uid]| + 1)
  {
  }

  lemma AdmitFirstAccounted(s: State, fate: nat -> Fate)
    requires Inv(s) && s.queue != []
    requires var f := fate(s.queue[0].uid); Refusal(f).None? ==> f.handle !in s.live
    ensures var r := AdmitFirst(s, fate); forall u :: 0 <= u < |r.results| ==> Accounted(r, u)
  {
    hide Queued, Active, QueueOk, Apart, AdmitFirst, Refusal;
    var t := s.queue[0];
    var h := fate(t.uid).handle;
    var r := AdmitFirst(s, fate);
    AdmitFirstChanges(s, fate);
    QueueShrinks(s.queue, s.tasks, s.results, Ok);
    IsActive(r, h);
    if Refusal(fate(t.uid)).None? && h in s.tasks {
      assert h !in s.multi;
    }
    hide TasksOk;
    forall u | 0 <= u < |r.results|
      ensures Accounted(r, u)
    {
      assert Accounted(s, u);
      if u != t.uid && s.results[u] == [] {
        StillQueued(s, r, u);
        if r.tasks == s.tasks {
          StillActive(s, r, u);
        } else {
          StillActiveUnless(s, r, u, h);
        }
      }
    }
  }

  lemma IsActive(s: State, h: Handle)
    ensures h in s.tasks ==> Active(s, s.tasks[h].uid)
  {
  }

  lemma StillActiveUnless(s: State, r: State, u: nat, k: Handle)
    requires forall h :: h in s.tasks && h != k ==> h in r.tasks && r.tasks[h] == s.tasks[h]
    requires k in s.tasks ==> s.tasks[k].uid != u
    ensures Active(s, u) ==> Active(r, u)
  {
  }

  lemma {:induction false} PumpInv(s: State, fate: nat -> Fate)
    requires Inv(s) && Fresh(s, fate)
    ensures Inv(Pump(s, fate)) && |Pump(s, fate).results| == |s.results|
    decreases |s.queue|
  {
    hide Inv, AdmitFirst, Failure, CleanedUp;
    if MayAdmit(s) {
      AdmitFirstInv(s, fate);
      AdmitFirstChanges(s, fate);
      PumpInv(AdmitFirst(s, fate), fate);
    }
  }

  /** The result of a submission none of whose tasks is finished stays as it was. */
  lemma UnfinishedResult(s: State, which: set<Handle>, ctx: nat -> Context, res: Code, u: nat)
    requires u < |s.results| && !HasTask(s.tasks, which, u)
    ensures FinishAll(s, which, ctx, res).results[u] == s.results[u]
  {
    hide HasTask, Finished, Cleaned;
  }

  lemma FinishQueue(s: State, which: set<Handle>, ctx: nat -> Context, res: Code)
    requires Inv(s)
    ensures QueueOk(multiset(s.queue), FinishAll(s, which, ctx, res).results)
  {
    hide Accounted, FinishAll, TasksOk;
    FinishSize(s, which, ctx, res);
    forall t | t in multiset(s.queue)
      ensures FinishAll(s, which, ctx, res).results[t.uid] == []
    {
      UnfinishedResult(s, which, ctx, res, t.uid);
    }
  }

  lemma FinishSize(s: State, which: set<Handle>, ctx: nat -> Context, res: Code)
    ensures |FinishAll(s, which, ctx, res).results| == |s.results|
  {
    hide HasTask, Finished, Cleaned;
  }

  lemma FinishTasks(s: State, which: set<Handle>, ctx: nat -> Context, res: Code)
    requires Inv(s)
    ensures var r := FinishAll(s, which, ctx, res); TasksOk(r.tasks, r.multi, r.results)
  {
    hide Accounted, FinishAll, QueueOk, Apart;
    FinishSize(s, which, ctx, res);
    var r := FinishAll(s, which, ctx, res);
    FinishMap(s, which, ctx, res);
    forall h | h in r.tasks
      ensures r.results[r.tasks[h].uid] == s.results[r.tasks[h].uid]
    {
      assert h in s.tasks && h !in which && r.tasks[h] == s.tasks[h];
      UnfinishedResult(s, which, ctx, res, s.tasks[h].uid);
    }
  }

  lemma FinishMap(s: State, which: set<Handle>, ctx: nat -> Context, res: Code)
    ensures var r := FinishAll(s, which, ctx, res);
      && r.tasks == s.tasks - which && (forall h :: h !in which ==> (h in r.multi <==> h in s.multi))
      && r.queue == s.queue && (s.multi <= s.live ==> r.multi <= r.live)
  {
    hide HasTask, Finished;
  }

  lemma FinishAllInv(s: State, which: set<Handle>, ctx: nat -> Context, res: Code)
    requires Inv(s)
    ensures Inv(FinishAll(s, which, ctx, res))
  {
    hide Queued, Active, QueueOk, TasksOk, FinishAll, Accounted;
    var r := FinishAll(s, which, ctx, res);
    FinishQueue(s, which, ctx, res);
    FinishTasks(s, which, ctx, res);
    FinishSize(s, which, ctx, res);
    FinishMap(s, which, ctx, res);
    forall u | 0 <= u < |r.results|
      ensures Accounted(r, u)
    {
      FinishAccounted(s, which, ctx, res, u);
    }
  }

  lemma FinishAccounted(s: State, which: set<Handle>, ctx: nat -> Context, res: Code, u: nat)
    requires TasksOk(s.tasks, s.multi, s.results) && u < |s.results| && Accounted(s, u)
    ensures var r := FinishAll(s, which, ctx, res); u < |r.results| && Accounted(r, u)
  {
    hide Queued, Active, HasTask, Cleaned;
    var r := FinishAll(s, which, ctx, res);
    StillQueued(s, r, u);
    FinishedResult(s, which, u);
    if s.results[u] == [] && !HasTask(s.tasks, which, u) {
      NotFinished(s, r, which, u);
    }
  }

  lemma FinishedResult(s: State, which: set<Handle>, u: nat)
    requires TasksOk(s.tasks, s.multi, s.results) && u < |s.results|
    ensures HasTask(s.tasks, which, u) ==> |s.results[u]| <= 1 && Active(s, u)
  {
  }

  lemma NotFinished(s: State, r: State, which: set<Handle>, u: nat)
    requires r.tasks == s.tasks - which && !HasTask(s.tasks, which, u)
    ensures Active(s, u) ==> Active(r, u)
  {
    if Active(s, u) {
      var h :| h in s.tasks && s.tasks[h].uid == u;
      assert h in r.tasks;
    }
  }

  // ----- Cancelling -----

  /** Cancelling the queue gives each queued submission its result and touches nothing else. */
  lemma {:induction false} CancelQueueResults(s: State, u: nat)
    requires QueueOk(multiset(s.queue), s.results) && u < |s.results|
    ensures var r := CancelQueue(s);
      && r == s.(queue := [], results := r.results) && |r.results| == |s.results|
      && r.results[u] == if Queued(s, u) then [Aborted] else s.results[u]
    decreases |s.queue|
  {
    if s.queue == [] {
    } else {
      hide QueueOk;
      var t := s.queue[0];
      var p := s.(queue := s.queue[1..], results := Deliver(s.results, t.uid, Aborted));
      PopQueue(s.queue, s.results);
      CancelQueueResults(p, u);
      PoppedQueued(s, p, u);
    }
  }

  lemma PopQueue(q: seq<Task>, results: seq<seq<Code>>)
    requires q != [] && QueueOk(multiset(q), results)
    ensures q[0].uid < |results| && results[q[0].uid] == []
    ensures QueueOk(multiset(q[1..]), Deliver(results, q[0].uid, Aborted))
    ensures forall v :: v in multiset(q[1..]) ==> v.uid != q[0].uid
  {
    hide QueueOk;
    QueueShrinks(q, map[], results, Aborted);
  }

  lemma PoppedQueued(s: State, p: State, u: nat)
    requires s.queue != [] && p.queue == s.queue[1..]
    ensures Queued(s, u) <==> Queued(p, u) || u == s.queue[0].uid
  {
    assert s.queue == [s.queue[0]] + p.queue;
    assert multiset(s.queue) == multiset{s.queue[0]} + multiset(p.queue);
    if Queued(p, u) {
      var t :| t in multiset(p.queue) && t.uid == u;
      assert t in multiset(s.queue);
    }
    assert s.queue[0] in multiset(s.queue);
  }

  lemma CancelQueueInv(s: State)
    requires Inv(s)
    ensures Inv(CancelQueue(s)) && CancelQueue(s) == s.(queue := [], results := CancelQueue(s).results)
    ensures |CancelQueue(s).results| == |s.results|
  {
    hide CancelQueue, Queued, Active;
    var r := CancelQueue(s);
    CancelQueueSame(s);
    forall u | 0 <= u < |s.results|
      ensures r.results[u] == (if Queued(s, u) then [Aborted] else s.results[u]) && Accounted(r, u)
    {
      CancelQueueResults(s, u);
      assert Accounted(s, u);
      StillActive(s, r, u);
    }
    forall h | h in s.tasks
      ensures r.results[s.tasks[h].uid] == s.results[s.tasks[h].uid]
    {
      NotQueued(s, s.tasks[h].uid);
    }
  }

  lemma NotQueued(s: State, u: nat)
    requires forall t :: t in multiset(s.queue) ==> t.uid != u
    ensures !Queued(s, u)
  {
  }

  lemma {:induction false} CancelQueueSame(s: State)
    ensures CancelQueue(s) == s.(queue := [], results := CancelQueue(s).results)
    ensures |CancelQueue(s).results| == |s.results|
    decreases |s.queue|
  {
    if s.queue == [] {
    } else {
      CancelQueueSame(s.(queue := s.queue[1..], results := Deliver(s.results, s.queue[0].uid, Aborted)));
    }
  }

  /** After a cancellation everything submitted before is completed. Each queued or
      active submission got exactly one more result: a zombie its second. */
  lemma CancelCompletes(s: State, ctx: nat -> Context, u: nat)
    requires Inv(s) && u < |s.results|
    ensures var r := Cancel(s, ctx);
      && Inv(r) && r.queue == [] && r.tasks == map[] && |r.results| == |s.results|
      && |r.results[u]| == |s.results[u]| + (if Queued(s, u) || Active(s, u) then 1 else 0)
      && 1 <= |r.results[u]| <= 2 && (|r.results[u]| == 2 && |s.results[u]| < 2 <==> Zombie(s, u))
  {
    hide CancelQueue, Queued, Active, TasksOk, QueueOk, Apart;
    CancelQueueInv(s);
    CancelQueueResults(s, u);
    var c := CancelQueue(s);
    FinishAllInv(c, s.tasks.Keys, ctx, Aborted);
    ActiveHasTask(s, u);
    assert Accounted(s, u);
    QueuedUnfinished(s, u);
    ActiveOnce(s, u);
  }

  lemma ActiveHasTask(s: State, u: nat)
    ensures Active(s, u) <==> HasTask(s.tasks, s.tasks.Keys, u)
  {
  }

  lemma QueuedUnfinished(s: State, u: nat)
    requires Inv(s) && u < |s.results|
    ensures Queued(s, u) ==> s.results[u] == [] && !Active(s, u)
  {
  }

  lemma ActiveOnce(s: State, u: nat)
    requires Inv(s) && u < |s.results|
    ensures Active(s, u) ==> |s.results[u]| <= 1
  {
  }
}
