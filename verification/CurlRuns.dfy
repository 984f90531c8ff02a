/** Whole runs of the multi-interface request handler: its order, its limit and
    what happens to every submission (core/curl_multi_handler.cpp). */
module CurlRuns {
  import opened CurlQueue
  import opened CurlMulti

  // ----- Order and limit -----

  /** The active tasks less urgent than protocol requests. */
  function Above(tasks: map<Handle, Task>): set<Handle> {
    set h | h in tasks && tasks[h].priority > PROTOCOL
  }

  predicate Bounded(s: State) { |Above(s.tasks)| <= MAX_EASY_COUNT }

  lemma SubsetSize<T>(a: set<T>, b: set<T>)
    requires a <= b
    ensures |a| <= |b|
  {
    assert b == a + (b - a);
  }

  lemma AboveSize(tasks: map<Handle, Task>)
    ensures |Above(tasks)| <= |tasks|
  {
    SubsetSize(Above(tasks), tasks.Keys);
  }

  lemma AboveAdded(tasks: map<Handle, Task>, h: Handle, t: Task)
    ensures |Above(tasks[h := t])| <= |Above(tasks)| + if t.priority > PROTOCOL then 1 else 0
  {
    var b := Above(tasks) + if t.priority > PROTOCOL then {h} else {};
    SubsetSize(Above(tasks[h := t]), b);
    assert t.priority <= PROTOCOL ==> b == Above(tasks);
    assert h in Above(tasks) ==> Above(tasks) + {h} == Above(tasks);
  }

  lemma SortedTail(q: seq<Task>)
    requires Sorted(q) && q != []
    ensures Sorted(q[1..])
  {
  }

  lemma AdmitFirstBounded(s: State, fate: nat -> Fate)
    requires MayAdmit(s) && Sorted(s.queue) && Bounded(s)
    ensures Sorted(AdmitFirst(s, fate).queue) && Bounded(AdmitFirst(s, fate))
  {
    hide Above, Refusal, Failure, CleanedUp;
    var t := s.queue[0];
    AdmitFirstChanges(s, fate);
    SortedTail(s.queue);
    AboveSize(s.tasks);
    AboveAdded(s.tasks, fate(t.uid).handle, t);
  }

  /** When the admission loop ends, no task of protocol priority or better is left
      in the queue, and others only while the limit is reached. */
  lemma {:induction false} PumpEnds(s: State, fate: nat -> Fate)
    requires Sorted(s.queue) && Bounded(s)
    ensures var r := Pump(s, fate);
      && Sorted(r.queue) && Bounded(r)
      && (forall t :: t in r.queue ==> t.priority > PROTOCOL)
      && (r.queue != [] ==> |r.tasks| >= MAX_EASY_COUNT)
    decreases |s.queue|
  {
    hide Bounded;
    if MayAdmit(s) {
      AdmitFirstBounded(s, fate);
      AdmitFirstChanges(s, fate);
      PumpEnds(AdmitFirst(s, fate), fate);
    }
  }

  lemma FinishedBounded(s: State, which: set<Handle>, ctx: nat -> Context, res: Code)
    requires Bounded(s)
    ensures Bounded(FinishAll(s, which, ctx, res))
  {
    SubsetSize(Above(FinishAll(s, which, ctx, res).tasks), Above(s.tasks));
  }

  // ----- Runs -----

  datatype Event =
    | Submitted(priority: int, id: int)
    | Raised(id: int)
    | Pumped(fate: nat -> Fate)
    | Done(handle: Handle, ctx: nat -> Context, res: Code)
    | Cancelled(ctx: nat -> Context)
    | StoppedProcessed(stopped: set<nat>, ctx: nat -> Context)
    | Closed

  /** libcurl hands out unused handles and reports only handles it was given. */
  predicate Possible(s: State, e: Event) {
    match e
    case Pumped(fate) => Fresh(s, fate)
    case Done(h, _, _) => h in s.multi
    case _ => true
  }

  function Step(s: State, e: Event): State {
    match e
    case Submitted(priority, id) => Submit(s, priority, id)
    case Raised(id) => s.(queue := Raise(s.queue, id))
    case Pumped(fate) => Pump(s, fate)
    case Done(h, ctx, res) => FinishAll(s, {h}, ctx, res)
    case Cancelled(ctx) => Cancel(s, ctx)
    case StoppedProcessed(stopped, ctx) => ProcessStopped(s, stopped, ctx)
    case Closed => s.(stopped := true)
  }

  function Run(s: State, es: seq<Event>): State
    decreases |es|
  {
    if es == [] then s else Run(Step(s, es[0]), es[1..])
  }

  predicate PossibleRun(s: State, es: seq<Event>)
    decreases |es|
  {
    es != [] ==> Possible(s, es[0]) && PossibleRun(Step(s, es[0]), es[1..])
  }

  lemma CancelSame(s: State, ctx: nat -> Context)
    requires Inv(s)
    ensures Inv(Cancel(s, ctx)) && Cancel(s, ctx).queue == [] && Cancel(s, ctx).tasks == map[]
    ensures |Cancel(s, ctx).results| == |s.results|
  {
    hide CancelQueue, Inv;
    CancelQueueInv(s);
    FinishAllInv(CancelQueue(s), s.tasks.Keys, ctx, Aborted);
  }

  lemma CloseInv(s: State)
    requires Inv(s)
    ensures Inv(s.(stopped := true))
  {
    hide Queued, Active;
    var r := s.(stopped := true);
    forall u | 0 <= u < |r.results|
      ensures Accounted(r, u)
    {
      assert Accounted(s, u);
      StillQueued(s, r, u);
      StillActive(s, r, u);
    }
  }

  lemma StepInv(s: State, e: Event)
    requires Inv(s) && Possible(s, e) && Sorted(s.queue)
    ensures Inv(Step(s, e)) && |Step(s, e).results| >= |s.results|
  {
    hide Inv, Sorted, Raise, Insert, Pump, Fresh, FinishAll;
    match e
    case Submitted(priority, id) => SubmitInv(s, priority, id);
    case Raised(id) => RaiseInv(s, id);
    case Pumped(fate) => PumpInv(s, fate);
    case Done(h, ctx, res) =>
      FinishAllInv(s, {h}, ctx, res);
      FinishAllSize(s, {h}, ctx, res);
    case Cancelled(ctx) => CancelSame(s, ctx);
    case StoppedProcessed(stopped, ctx) =>
      var which := set h | h in s.tasks && s.tasks[h].uid in stopped;
      FinishAllInv(s, which, ctx, Aborted);
      FinishAllSize(s, which, ctx, Aborted);
    case Closed => CloseInv(s);
  }

  lemma FinishAllSize(s: State, which: set<Handle>, ctx: nat -> Context, res: Code)
    ensures |FinishAll(s, which, ctx, res).results| == |s.results|
    ensures FinishAll(s, which, ctx, res).queue == s.queue
  {
  }

  lemma StepBounded(s: State, e: Event)
    requires Inv(s) && Sorted(s.queue) && Bounded(s)
    ensures Sorted(Step(s, e).queue) && Bounded(Step(s, e))
  {
    hide Inv, Raise, Insert, Pump, FinishAll, Cancel;
    match e
    case Submitted(priority, id) => InsertSorted(s.queue, Task(|s.results|, priority, id));
    case Raised(id) => RaiseKeepsQueue(s.queue, id);
    case Pumped(fate) => PumpEnds(s, fate);
    case Done(h, ctx, res) =>
      FinishedBounded(s, {h}, ctx, res);
      FinishAllSize(s, {h}, ctx, res);
    case Cancelled(ctx) => CancelSame(s, ctx);
    case StoppedProcessed(stopped, ctx) =>
      var which := set h | h in s.tasks && s.tasks[h].uid in stopped;
      FinishedBounded(s, which, ctx, Aborted);
      FinishAllSize(s, which, ctx, Aborted);
    case Closed =>
  }

  /** In every run the queue stays sorted by priority, at most ten tasks less urgent
      than protocol requests are active, and every submission is accounted for. */
  lemma {:induction false} RunInv(s: State, es: seq<Event>)
    requires Inv(s) && Sorted(s.queue) && Bounded(s) && PossibleRun(s, es)
    ensures var r := Run(s, es); Inv(r) && Sorted(r.queue) && Bounded(r) && |r.results| >= |s.results|
    decreases |es|
  {
    hide Inv, Sorted, Bounded, Possible, Step;
    if es == [] {
    } else {
      StepInv(s, es[0]);
      StepBounded(s, es[0]);
      RunInv(Step(s, es[0]), es[1..]);
    }
  }

  lemma StartOk()
    ensures Inv(START) && Sorted(START.queue) && Bounded(START)
  {
  }

  // ----- First come, first served -----

  predicate Numbered(s: State) { InOrder(s.queue) && forall i :: 0 <= i < |s.queue| ==> s.queue[i].uid < |s.results| }

  lemma {:induction false} PumpNumbered(s: State, fate: nat -> Fate)
    requires Numbered(s)
    ensures Numbered(Pump(s, fate))
    decreases |s.queue|
  {
    hide AdmitFirst;
    if MayAdmit(s) {
      AdmitFirstChanges(s, fate);
      PumpNumbered(AdmitFirst(s, fate), fate);
    }
  }

  lemma SubmitNumbered(s: State, priority: int, id: int)
    requires Numbered(s)
    ensures Numbered(Submit(s, priority, id))
  {
    hide InOrder, Insert;
    var t := Task(|s.results|, priority, id);
    InsertInOrder(s.queue, t);
    InsertParts(s.queue, t);
    var r := Insert(s.queue, t);
    forall i | 0 <= i < |r|
      ensures r[i].uid <= |s.results|
    {
      assert r[i] in multiset(r);
      assert r[i] in multiset(s.queue) + multiset{t};
      assert r[i] in s.queue || r[i] == t;
    }
  }

  lemma StepNumbered(s: State, e: Event)
    requires Inv(s) && Numbered(s) && !e.Raised?
    ensures Numbered(Step(s, e))
  {
    hide Inv, Submit, Pump, FinishAll, Cancel, InOrder;
    match e
    case Submitted(priority, id) => SubmitNumbered(s, priority, id);
    case Pumped(fate) => PumpNumbered(s, fate);
    case Done(h, ctx, res) => FinishAllSize(s, {h}, ctx, res);
    case Cancelled(ctx) =>
      CancelSame(s, ctx);
      NothingInOrder();
    case StoppedProcessed(stopped, ctx) =>
      FinishAllSize(s, (set h | h in s.tasks && s.tasks[h].uid in stopped), ctx, Aborted);
    case Closed =>
  }

  lemma NothingInOrder()
    ensures InOrder([])
  {
  }

  /** Without raises the queue is first come, first served within each priority. */
  lemma {:induction false} RunInOrder(s: State, es: seq<Event>)
    requires Inv(s) && Sorted(s.queue) && Bounded(s) && Numbered(s) && PossibleRun(s, es)
    requires forall i :: 0 <= i < |es| ==> !es[i].Raised?
    ensures InOrder(Run(s, es).queue)
    decreases |es|
  {
    hide Inv, Sorted, Bounded, Possible, Step, InOrder;
    if es == [] {
    } else {
      StepInv(s, es[0]);
      StepBounded(s, es[0]);
      StepNumbered(s, es[0]);
      RunInOrder(Step(s, es[0]), es[1..]);
    }
  }

  // ----- Runs in which no admission fails half-way -----

  ghost predicate Adds(fate: nat -> Fate) { forall u: nat :: Refusal(fate(u)).None? ==> Failure(fate(u)).None? }

  ghost predicate Smooth(e: Event) { e.Pumped? ==> Adds(e.fate) }

  /** Nobody has two results, and nobody active has one. */
  predicate OnceAtMost(s: State) {
    && s.tasks.Keys <= s.multi
    && forall u :: 0 <= u < |s.results| ==> |s.results[u]| <= 1
  }

  lemma {:induction false} PumpOnce(s: State, fate: nat -> Fate)
    requires Inv(s) && OnceAtMost(s) && Fresh(s, fate) && Adds(fate)
    ensures OnceAtMost(Pump(s, fate))
    decreases |s.queue|
  {
    hide Inv;
    if MayAdmit(s) {
      AdmitFirstInv(s, fate);
      AdmitFirstOnce(s, fate);
      PumpOnce(AdmitFirst(s, fate), fate);
    }
  }

  lemma AdmitFirstOnce(s: State, fate: nat -> Fate)
    requires Inv(s) && OnceAtMost(s) && s.queue != [] && Adds(fate)
    ensures OnceAtMost(AdmitFirst(s, fate)) && |AdmitFirst(s, fate).queue| < |s.queue|
  {
    hide Inv;
    FirstWaits(s);
    var u := s.queue[0].uid;
    assert Refusal(fate(u)).None? ==> Failure(fate(u)).None?;
  }

  lemma FirstWaits(s: State)
    requires Inv(s) && s.queue != []
    ensures s.queue[0].uid < |s.results| && s.results[s.queue[0].uid] == []
  {
    assert s.queue[0] in multiset(s.queue);
  }

  lemma FinishAllOnce(s: State, which: set<Handle>, ctx: nat -> Context, res: Code)
    requires Inv(s) && OnceAtMost(s)
    ensures OnceAtMost(FinishAll(s, which, ctx, res))
  {
    hide Queued, Finished, QueueOk, Apart;
    var r := FinishAll(s, which, ctx, res);
    forall u | 0 <= u < |s.results|
      ensures |r.results[u]| <= 1
    {
      if HasTask(s.tasks, which, u) {
        assert s.results[u] == [];
      }
    }
  }

  lemma CancelOnce(s: State, ctx: nat -> Context)
    requires Inv(s) && OnceAtMost(s)
    ensures OnceAtMost(Cancel(s, ctx))
  {
    hide Cancel, Inv;
    CancelSame(s, ctx);
    forall u | 0 <= u < |s.results|
      ensures |Cancel(s, ctx).results[u]| <= 1
    {
      CancelCompletes(s, ctx, u);
      NoZombie(s, u);
    }
  }

  lemma NoZombie(s: State, u: nat)
    requires Inv(s) && OnceAtMost(s) && u < |s.results|
    ensures !Zombie(s, u)
  {
  }

  lemma StepOnce(s: State, e: Event)
    requires Inv(s) && OnceAtMost(s) && Possible(s, e) && Smooth(e)
    ensures OnceAtMost(Step(s, e))
  {
    hide Inv, Raise, Insert, Pump, FinishAll, Cancel, Adds;
    match e
    case Submitted(priority, id) =>
    case Raised(id) =>
    case Pumped(fate) => PumpOnce(s, fate);
    case Done(h, ctx, res) => FinishAllOnce(s, {h}, ctx, res);
    case Cancelled(ctx) => CancelOnce(s, ctx);
    case StoppedProcessed(stopped, ctx) =>
      FinishAllOnce(s, (set h | h in s.tasks && s.tasks[h].uid in stopped), ctx, Aborted);
    case Closed =>
  }

  lemma {:induction false} RunOnce(s: State, es: seq<Event>)
    requires Inv(s) && Sorted(s.queue) && Bounded(s) && OnceAtMost(s) && PossibleRun(s, es)
    requires forall i :: 0 <= i < |es| ==> Smooth(es[i])
    ensures OnceAtMost(Run(s, es))
    decreases |es|
  {
    hide Inv, Sorted, Bounded, OnceAtMost, Possible, Step, Smooth;
    if es == [] {
    } else {
      StepInv(s, es[0]);
      StepBounded(s, es[0]);
      StepOnce(s, es[0]);
      RunOnce(Step(s, es[0]), es[1..]);
    }
  }

  /** Exactly one of queued, active and completed. */
  predicate ExactlyOne(s: State, u: nat)
    requires u < |s.results|
  {
    var q, a, c := Queued(s, u), Active(s, u), s.results[u] != [];
    (q || a || c) && !(q && a) && !(q && c) && !(a && c)
  }

  /** As long as every admitted task could be added to libcurl, every submission is in
      exactly one place and has at most one result; once everything is cancelled each
      has exactly one. */
  lemma EachInOnePlace(es: seq<Event>, u: nat, ctx: nat -> Context)
    requires PossibleRun(START, es) && forall i :: 0 <= i < |es| ==> Smooth(es[i])
    requires u < |Run(START, es).results|
    ensures var r := Run(START, es);
      && ExactlyOne(r, u) && |r.results[u]| <= 1
      && |Cancel(r, ctx).results| == |r.results| && |Cancel(r, ctx).results[u]| == 1
  {
    hide Inv, Sorted, Bounded, Run, Cancel, Queued, Active;
    StartOk();
    RunInv(START, es);
    RunOnce(START, es);
    var r := Run(START, es);
    CancelCompletes(r, ctx, u);
    NoZombie(r, u);
    QueuedUnfinished(r, u);
    AccountedFor(r, u);
  }

  lemma AccountedFor(s: State, u: nat)
    requires Inv(s) && u < |s.results|
    ensures s.results[u] == [] ==> Queued(s, u) || Active(s, u)
  {
    hide Queued, Active;
    assert Accounted(s, u);
  }

  /** But a task whose addition to libcurl fails gets a result at once and a second one
      when the active tasks are cancelled. */
  lemma FailedAdditionDeliversTwice(s: State, fate: nat -> Fate, ctx: nat -> Context)
    requires Inv(s) && s.queue != []
    requires var f := fate(s.queue[0].uid);
      Refusal(f).None? && Failure(f).Some? && f.handle !in s.live
    ensures var u, r := s.queue[0].uid, AdmitFirst(s, fate);
      u < |r.results| == |Cancel(r, ctx).results| && |r.results[u]| == 1 && |Cancel(r, ctx).results[u]| == 2
  {
    hide Inv, Cancel, Queued, Active;
    FirstWaits(s);
    AdmitFirstInv(s, fate);
    var u, r := s.queue[0].uid, AdmitFirst(s, fate);
    IsActive(r, fate(u).handle);
    CancelCompletes(r, ctx, u);
  }
}
