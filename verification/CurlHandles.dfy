/** Which libcurl handles are cleaned up, and how often
    (core/curl_handler.cpp, core/curl_multi_handler.cpp). */
module CurlHandles {
  import opened Options
  import opened CurlQueue
  import opened CurlMulti
  import opened CurlRuns

  /** The handles cleaned up while active tasks are finished. */
  function CleanedBy(s: State, e: Event): set<Handle> {
    match e
    case Done(h, ctx, _) => Cleaned(s.tasks, {h}, ctx)
    case Cancelled(ctx) => Cleaned(s.tasks, s.tasks.Keys, ctx)
    case StoppedProcessed(stopped, ctx) =>
      Cleaned(s.tasks, (set h | h in s.tasks && s.tasks[h].uid in stopped), ctx)
    case _ => {}
  }

  /** No context is gone when its task is finished. */
  ghost predicate Kept(ctx: nat -> Context) { forall u: nat :: ctx(u) != Gone }

  ghost predicate ContextsKept(e: Event) {
    match e
    case Done(_, ctx, _) => Kept(ctx)
    case Cancelled(ctx) => Kept(ctx)
    case StoppedProcessed(_, ctx) => Kept(ctx)
    case _ => true
  }

  /** The handles in use are those of the active tasks. */
  predicate Matched(s: State) { s.live == s.tasks.Keys }

  // ----- One cancellation, in any state -----

  lemma {:induction false} CancelQueueKeeps(s: State)
    ensures CancelQueue(s).tasks == s.tasks && CancelQueue(s).live == s.live
    decreases |s.queue|
  {
    if s.queue == [] {
    } else {
      CancelQueueKeeps(s.(queue := s.queue[1..], results := Deliver(s.results, s.queue[0].uid, Aborted)));
    }
  }

  /** A cancellation leaves no handle in use exactly when each belongs to an active task whose
      context is still there, and cleans none up twice exactly when every active task whose
      context is there still has its handle. */
  lemma CancelHandles(s: State, ctx: nat -> Context)
    ensures Cancel(s, ctx).live == {} <==> forall h :: h in s.live ==> h in s.tasks && ctx(s.tasks[h].uid) != Gone
    ensures CleanedBy(s, Cancelled(ctx)) <= s.live
      <==> forall h :: h in s.tasks && ctx(s.tasks[h].uid) != Gone ==> h in s.live
  {
    hide CancelQueue;
    CancelQueueKeeps(s);
    var c, r := Cleaned(s.tasks, s.tasks.Keys, ctx), Cancel(s, ctx);
    assert r.live == s.live - c;
    if r.live == {} {
      forall h | h in s.live
        ensures h in s.tasks && ctx(s.tasks[h].uid) != Gone
      {
        assert h !in r.live;
      }
    }
  }

  /** A task whose addition to libcurl failed has its handle cleaned up at once and again when
      the active tasks are cancelled. */
  lemma FailedAdditionCleansTwice(s: State, fate: nat -> Fate, ctx: nat -> Context)
    requires s.queue != []
    requires var f := fate(s.queue[0].uid); Refusal(f).None? && CleanedUp(f)
    requires ctx(s.queue[0].uid) != Gone
    ensures var h, r := fate(s.queue[0].uid).handle, AdmitFirst(s, fate);
      h !in r.live && h in CleanedBy(r, Cancelled(ctx))
  {
  }

  /** A new handle is taken with its task, added to libcurl when the context runs and the addition works, and
      cleaned up at once only when the context runs and the addition fails. */
  lemma AdmittedHandle(s: State, t: Task, f: Fate)
    requires f.first == Running && f.initOk
    ensures var r := Admit(s, t, f);
      && r.tasks == s.tasks[f.handle := t]
      && r.live == (if f.second == Running && !f.addOk then s.live - {f.handle} else s.live + {f.handle})
      && r.multi == (if f.second == Running && f.addOk then s.multi + {f.handle} else s.multi)
  {
  }

  /** A finished task leaves the map, and its handle is cleaned up unless its context is gone. */
  lemma FinishedHandle(s: State, h: Handle, ctx: nat -> Context, res: Code)
    requires h in s.tasks
    ensures var r, gone := FinishAll(s, {h}, ctx, res), ctx(s.tasks[h].uid) == Gone;
      && r.tasks == s.tasks - {h}
      && r.live == (if gone then s.live else s.live - {h}) && r.multi == (if gone then s.multi else s.multi - {h})
  {
    hide HasTask, Finished;
    assert Cleaned(s.tasks, {h}, ctx) == if ctx(s.tasks[h].uid) == Gone then {} else {h};
  }

  // ----- Runs in which additions work and contexts stay -----

  lemma AdmitFirstMatched(s: State, fate: nat -> Fate)
    requires Matched(s) && s.queue != [] && Adds(fate)
    ensures Matched(AdmitFirst(s, fate)) && s.live <= AdmitFirst(s, fate).live
  {
    var u := s.queue[0].uid;
    assert Refusal(fate(u)).None? ==> Failure(fate(u)).None?;
  }

  lemma {:induction false} PumpMatched(s: State, fate: nat -> Fate)
    requires Matched(s) && Adds(fate)
    ensures Matched(Pump(s, fate)) && s.live <= Pump(s, fate).live
    decreases |s.queue|
  {
    hide Matched, AdmitFirst;
    if MayAdmit(s) {
      AdmitFirstMatched(s, fate);
      AdmitFirstChanges(s, fate);
      PumpMatched(AdmitFirst(s, fate), fate);
    } else {
    }
  }

  lemma FinishMatched(s: State, which: set<Handle>, ctx: nat -> Context, res: Code)
    requires Matched(s) && Kept(ctx)
    ensures var r, c := FinishAll(s, which, ctx, res), Cleaned(s.tasks, which, ctx);
      Matched(r) && c <= s.live && r.live == s.live - c
  {
    hide HasTask, Finished;
    assert Cleaned(s.tasks, which, ctx) == which * s.tasks.Keys;
  }

  /** Every event cleans up only handles in use, and what it does not clean up stays in use. */
  lemma StepMatched(s: State, e: Event)
    requires Matched(s) && Smooth(e) && ContextsKept(e)
    ensures Matched(Step(s, e)) && CleanedBy(s, e) <= s.live && s.live - CleanedBy(s, e) <= Step(s, e).live
    ensures CleanedBy(s, e) !! Step(s, e).live
  {
    hide Insert, Raise, Pump, FinishAll, CancelQueue, Cleaned, Adds, Kept;
    match e
    case Submitted(priority, id) =>
    case Raised(id) =>
    case Pumped(fate) => PumpMatched(s, fate);
    case Done(h, ctx, res) => FinishMatched(s, {h}, ctx, res);
    case Cancelled(ctx) =>
      CancelQueueKeeps(s);
      FinishMatched(CancelQueue(s), s.tasks.Keys, ctx, Aborted);
    case StoppedProcessed(stopped, ctx) =>
      FinishMatched(s, (set h | h in s.tasks && s.tasks[h].uid in stopped), ctx, Aborted);
    case Closed =>
  }

  /** Does every event of the run clean up only handles in use, which then are in use no longer? */
  predicate EachOnce(s: State, es: seq<Event>)
    decreases |es|
  {
    es != [] ==>
      && CleanedBy(s, es[0]) <= s.live && CleanedBy(s, es[0]) !! Step(s, es[0]).live
      && EachOnce(Step(s, es[0]), es[1..])
  }

  lemma {:induction false} RunMatched(s: State, es: seq<Event>)
    requires Matched(s) && forall i :: 0 <= i < |es| ==> Smooth(es[i]) && ContextsKept(es[i])
    ensures Matched(Run(s, es)) && EachOnce(s, es)
    decreases |es|
  {
    hide Matched, Step, Smooth, ContextsKept, CleanedBy;
    if es == [] {
    } else {
      StepMatched(s, es[0]);
      RunMatched(Step(s, es[0]), es[1..]);
    }
  }

  /** So when every addition works and no context goes away before its task is finished, the
      handles in use are always those of the active tasks, none is cleaned up twice, and a
      cancellation leaves none. */
  lemma HandlesReturned(es: seq<Event>, ctx: nat -> Context)
    requires Kept(ctx) && forall i :: 0 <= i < |es| ==> Smooth(es[i]) && ContextsKept(es[i])
    ensures var r := Run(START, es); Matched(r) && EachOnce(START, es) && Cancel(r, ctx).live == {}
  {
    hide Cancel, Run;
    RunMatched(START, es);
    CancelHandles(Run(START, es), ctx);
  }
}
