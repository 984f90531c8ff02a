/** Which result codes the multi-interface request handler delivers, told from what happened
    (core/curl_handler.cpp, core/curl_multi_handler.cpp). */
module CurlResults {
  import opened Options
  import opened CurlQueue
  import opened CurlMulti
  import opened CurlRuns

  /** What a submission taken from the queue is told: nothing when its handle was added. */
  predicate AdmissionTells(f: Fate, c: Code) {
    || (f.first == Gone && c == FailedInit)
    || (f.first == Stopped && c == Aborted)
    || (f.first == Running && !f.initOk && c == FailedInit)
    || (f.first == Running && f.initOk && f.second == Gone && c == FailedInit)
    || (f.first == Running && f.initOk && f.second == Stopped && c == Aborted)
    || (f.first == Running && f.initOk && f.second == Running && !f.addOk && c == FailedInit)
  }

  /** Was the handle made and added? */
  predicate Added(f: Fate) { f.first == Running && f.initOk && f.second == Running && f.addOk }

  /** What an active task told to end with `res` is told: just that while its context runs. */
  predicate EndTells(x: Context, res: Code, c: Code) {
    (x == Running && c == res) || (x == Stopped && c == Aborted) || (x == Gone && c == FailedInit)
  }

  /** In state `s` the event delivers `c` to submission `u`. */
  predicate Tells(s: State, e: Event, u: nat, c: Code) {
    match e
    case Submitted(_, _) => u == |s.results| && s.stopped && c == Aborted
    case Raised(_) => false
    case Pumped(fate) => Queued(s, u) && AdmissionTells(fate(u), c)
    case Done(h, ctx, res) => h in s.tasks && s.tasks[h].uid == u && EndTells(ctx(u), res, c)
    case Cancelled(ctx) =>
      (Queued(s, u) && c == Aborted) || (!Queued(s, u) && Active(s, u) && EndTells(ctx(u), Aborted, c))
    case StoppedProcessed(stopped, ctx) => Active(s, u) && u in stopped && EndTells(ctx(u), Aborted, c)
    case Closed => false
  }

  function ResultsOf(s: State, u: nat): seq<Code> { if u < |s.results| then s.results[u] else [] }

  // ----- Taking tasks from the queue -----

  lemma AdmitTells(s: State, fate: nat -> Fate)
    requires Inv(s) && s.queue != []
    ensures var u, r := s.queue[0].uid, AdmitFirst(s, fate);
      && s.results[u] == [] && |r.results| == |s.results|
      && (forall c :: AdmissionTells(fate(u), c) ==> r.results[u] == [c])
      && (Added(fate(u)) ==> r.results[u] == [])
      && (forall v :: 0 <= v < |s.results| && v != u ==> r.results[v] == s.results[v])
  {
    hide Inv;
    FirstWaits(s);
  }

  lemma FirstLeaves(s: State, u: nat)
    requires Inv(s) && s.queue != []
    ensures !Queued(s.(queue := s.queue[1..]), s.queue[0].uid)
    ensures u != s.queue[0].uid ==> (Queued(s.(queue := s.queue[1..]), u) <==> Queued(s, u))
  {
    hide TasksOk, Accounted;
    QueueShrinks(s.queue, s.tasks, s.results, Ok);
  }

  lemma SameQueued(s: State, r: State, u: nat)
    requires s.queue == r.queue
    ensures Queued(s, u) <==> Queued(r, u)
  {
  }

  /** The admission loop tells exactly those that leave the queue, each once. */
  lemma {:induction false} PumpTells(s: State, fate: nat -> Fate, u: nat)
    requires Inv(s) && Fresh(s, fate) && u < |s.results|
    ensures var r := Pump(s, fate);
      && Inv(r) && |r.results| == |s.results|
      && (Queued(r, u) ==> Queued(s, u))
      && (if Queued(s, u) && !Queued(r, u) then
            && s.results[u] == [] && (forall c :: AdmissionTells(fate(u), c) ==> r.results[u] == [c])
            && (Added(fate(u)) ==> r.results[u] == [])
          else r.results[u] == s.results[u])
    decreases |s.queue|
  {
    hide Inv, AdmitFirst, Queued, AdmissionTells, Added;
    if MayAdmit(s) {
      var r := AdmitFirst(s, fate);
      AdmitFirstInv(s, fate);
      AdmitFirstChanges(s, fate);
      AdmitTells(s, fate);
      FirstLeaves(s, u);
      SameQueued(s.(queue := s.queue[1..]), r, u);
      FirstQueued(s);
      PumpTells(r, fate, u);
    } else {
      PumpInv(s, fate);
    }
  }

  lemma FirstQueued(s: State)
    requires s.queue != []
    ensures Queued(s, s.queue[0].uid)
  {
    assert s.queue[0] in multiset(s.queue);
  }

  // ----- Ending active tasks -----

  lemma FinishTells(s: State, which: set<Handle>, ctx: nat -> Context, res: Code, u: nat)
    requires u < |s.results|
    ensures var r := FinishAll(s, which, ctx, res);
      && |r.results| == |s.results|
      && (if HasTask(s.tasks, which, u) then
            |r.results[u]| == |s.results[u]| + 1 && r.results[u][..|s.results[u]|] == s.results[u]
            && EndTells(ctx(u), res, r.results[u][|s.results[u]|])
          else r.results[u] == s.results[u])
  {
    hide HasTask, Cleaned;
  }

  /** While its context runs, the caller of a task whose handle libcurl reports as done gets
      exactly the code that libcurl reported. */
  lemma ReportedCodeIsHandedOver(s: State, h: Handle, ctx: nat -> Context, res: Code)
    requires Inv(s) && h in s.tasks && ctx(s.tasks[h].uid) == Running
    ensures var u, r := s.tasks[h].uid, Step(s, Done(h, ctx, res));
      u < |s.results| == |r.results| && r.results[u] == s.results[u] + [res]
  {
    hide FinishAll;
    var u := s.tasks[h].uid;
    assert HasTask(s.tasks, {h}, u);
    FinishTells(s, {h}, ctx, res, u);
    var r := Step(s, Done(h, ctx, res));
    assert r.results[u] == r.results[u][..|s.results[u]|] + [res];
  }

  // ----- Every event -----

  /** What an event adds to the results of a submission. */
  predicate ToldBy(s: State, e: Event, u: nat, was: seq<Code>, now: seq<Code>) {
    now == was || (|now| == |was| + 1 && now[..|was|] == was && Tells(s, e, u, now[|was|]))
  }

  lemma PumpedTells(s: State, fate: nat -> Fate, u: nat)
    requires Inv(s) && Fresh(s, fate) && u < |s.results|
    ensures |Pump(s, fate).results| == |s.results|
    ensures ToldBy(s, Pumped(fate), u, s.results[u], Pump(s, fate).results[u])
  {
    hide Inv, Pump, Fresh, Queued;
    PumpTells(s, fate, u);
    var f := fate(u);
    if !Added(f) {
      var stopped := f.first == Stopped || (f.first == Running && f.initOk && f.second == Stopped);
      var c := if stopped then Aborted else FailedInit;
      assert AdmissionTells(f, c);
    }
  }

  lemma CancelledTells(s: State, ctx: nat -> Context, u: nat)
    requires Inv(s) && u < |s.results|
    ensures |Cancel(s, ctx).results| == |s.results|
    ensures var now := Cancel(s, ctx).results[u];
      && ToldBy(s, Cancelled(ctx), u, s.results[u], now)
      && (Queued(s, u) || Active(s, u) ==> now != s.results[u])
  {
    hide Inv, CancelQueue, FinishAll, Queued, Active;
    InvQueueOk(s);
    CancelQueueResults(s, u);
    CancelQueueSame(s);
    var c := CancelQueue(s);
    FinishTells(c, s.tasks.Keys, ctx, Aborted, u);
    ActiveHasTask(s, u);
    QueuedUnfinished(s, u);
  }

  lemma InvQueueOk(s: State)
    requires Inv(s)
    ensures QueueOk(multiset(s.queue), s.results)
  {
  }

  lemma DoneTells(s: State, h: Handle, ctx: nat -> Context, res: Code, u: nat)
    requires Inv(s) && u < |s.results|
    ensures |FinishAll(s, {h}, ctx, res).results| == |s.results|
    ensures var now := FinishAll(s, {h}, ctx, res).results[u];
      && ToldBy(s, Done(h, ctx, res), u, s.results[u], now)
      && (h in s.tasks && s.tasks[h].uid == u ==> now != s.results[u])
  {
    hide Inv, FinishAll, EndTells;
    FinishTells(s, {h}, ctx, res, u);
    assert HasTask(s.tasks, {h}, u) <==> h in s.tasks && s.tasks[h].uid == u;
  }

  lemma StoppedTells(s: State, stopped: set<nat>, ctx: nat -> Context, u: nat)
    requires Inv(s) && u < |s.results|
    ensures |ProcessStopped(s, stopped, ctx).results| == |s.results|
    ensures var now := ProcessStopped(s, stopped, ctx).results[u];
      && ToldBy(s, StoppedProcessed(stopped, ctx), u, s.results[u], now)
      && (Active(s, u) && u in stopped ==> now != s.results[u])
  {
    hide Inv, FinishAll, EndTells;
    var which := set h | h in s.tasks && s.tasks[h].uid in stopped;
    FinishTells(s, which, ctx, Aborted, u);
    assert HasTask(s.tasks, which, u) <==> Active(s, u) && u in stopped;
  }

  /** Every event adds to the results of a submission nothing or exactly what it tells it. */
  lemma StepTells(s: State, e: Event, u: nat)
    requires Inv(s) && Possible(s, e) && Sorted(s.queue) && u < |Step(s, e).results|
    ensures ToldBy(s, e, u, ResultsOf(s, u), Step(s, e).results[u])
    ensures (exists c :: Tells(s, e, u, c)) && !e.Pumped? ==> Step(s, e).results[u] != ResultsOf(s, u)
  {
    hide Inv, Sorted, Insert, Raise, Pump, Fresh, FinishAll, CancelQueue, ToldBy, Cancel, Queued, Active;
    match e
    case Submitted(priority, id) => SubmittedTells(s, priority, id, u);
    case Raised(id) => NothingTold(s, e, u);
    case Pumped(fate) =>
      PumpInv(s, fate);
      PumpedTells(s, fate, u);
    case Done(h, ctx, res) =>
      FinishSize(s, {h}, ctx, res);
      DoneTells(s, h, ctx, res, u);
    case Cancelled(ctx) =>
      CancelSame(s, ctx);
      CancelledTells(s, ctx, u);
    case StoppedProcessed(stopped, ctx) =>
      var which := set h | h in s.tasks && s.tasks[h].uid in stopped;
      FinishSize(s, which, ctx, Aborted);
      StoppedTells(s, stopped, ctx, u);
    case Closed => NothingTold(s, e, u);
  }

  lemma SubmittedTells(s: State, priority: int, id: int, u: nat)
    requires u < |Submit(s, priority, id).results|
    ensures var now := Submit(s, priority, id).results[u];
      && ToldBy(s, Submitted(priority, id), u, ResultsOf(s, u), now)
      && (u == |s.results| && s.stopped ==> now != ResultsOf(s, u))
  {
  }

  lemma NothingTold(s: State, e: Event, u: nat)
    ensures ToldBy(s, e, u, ResultsOf(s, u), ResultsOf(s, u))
  {
  }

  // ----- Whole runs -----

  /** The event at position `i` of the run delivers `c` to submission `u`. */
  predicate ToldAt(s: State, es: seq<Event>, i: nat, u: nat, c: Code) {
    i < |es| && Tells(Run(s, es[..i]), es[i], u, c)
  }

  predicate ToldSomewhere(s: State, es: seq<Event>, u: nat, c: Code) {
    exists i: nat :: i < |es| && ToldAt(s, es, i, u, c)
  }

  lemma ToldLater(s: State, es: seq<Event>, i: nat, u: nat, c: Code)
    requires es != [] && ToldAt(Step(s, es[0]), es[1..], i, u, c)
    ensures ToldAt(s, es, i + 1, u, c)
    ensures ToldSomewhere(s, es, u, c)
  {
    hide Tells, Step;
    assert es[..i + 1][0] == es[0] && es[..i + 1][1..] == es[1..][..i];
  }

  lemma ToldInRest(s: State, es: seq<Event>, u: nat, c: Code)
    requires es != [] && ToldSomewhere(Step(s, es[0]), es[1..], u, c)
    ensures ToldSomewhere(s, es, u, c)
  {
    hide ToldAt, Step;
    var i: nat :| i < |es[1..]| && ToldAt(Step(s, es[0]), es[1..], i, u, c);
    ToldLater(s, es, i, u, c);
  }

  lemma ToldFirst(s: State, es: seq<Event>, u: nat, c: Code)
    requires es != [] && Tells(s, es[0], u, c)
    ensures ToldSomewhere(s, es, u, c)
  {
    hide Tells, Step;
    assert es[..0] == [] && ToldAt(s, es, 0, u, c);
  }

  /** In every run each result has its event: results are only ever added, and each code
      among them was told by some event of the run. */
  lemma {:induction false} RunTells(s: State, es: seq<Event>, u: nat)
    requires Inv(s) && Sorted(s.queue) && Bounded(s) && PossibleRun(s, es) && u < |Run(s, es).results|
    ensures var was, now := ResultsOf(s, u), Run(s, es).results[u];
      && |was| <= |now| && now[..|was|] == was
      && forall j :: |was| <= j < |now| ==> ToldSomewhere(s, es, u, now[j])
    decreases |es|
  {
    hide Inv, Sorted, Bounded, Possible, Step, Tells, ToldAt, ToldSomewhere;
    var was, now := ResultsOf(s, u), Run(s, es).results[u];
    if es == [] {
    } else {
      var r, rest := Step(s, es[0]), es[1..];
      StepInv(s, es[0]);
      StepBounded(s, es[0]);
      RunInv(r, rest);
      RunTells(r, rest, u);
      var mid := ResultsOf(r, u);
      FirstTells(s, es[0], u);
      assert now[..|was|] == mid[..|was|];
      forall j | |was| <= j < |now|
        ensures ToldSomewhere(s, es, u, now[j])
      {
        if j < |mid| {
          assert now[j] == mid[j];
          ToldFirst(s, es, u, now[j]);
        } else {
          assert ToldSomewhere(r, rest, u, now[j]);
          ToldInRest(s, es, u, now[j]);
        }
      }
    }
  }

  lemma FirstTells(s: State, e: Event, u: nat)
    requires Inv(s) && Possible(s, e) && Sorted(s.queue)
    ensures var was, mid := ResultsOf(s, u), ResultsOf(Step(s, e), u);
      && |was| <= |mid| && mid[..|was|] == was && (forall j :: |was| <= j < |mid| ==> Tells(s, e, u, mid[j]))
  {
    hide Inv, Possible, Sorted, Step, Tells;
    StepInv(s, e);
    if u < |Step(s, e).results| {
      StepTells(s, e, u);
    }
  }

  /** So whoever is told that a request was aborted submitted it after the stop, or it was
      cancelled or asked to stop, or libcurl reported that. */
  lemma AbortedHasReason(s: State, e: Event, u: nat)
    requires Tells(s, e, u, Aborted)
    ensures
      || (e.Submitted? && s.stopped)
      || e.Cancelled?
      || e.StoppedProcessed?
      || (e.Pumped? && (e.fate(u).first == Stopped || e.fate(u).second == Stopped))
      || (e.Done? && (e.ctx(u) == Stopped || e.res == Aborted))
  {
  }

  /** And whoever is told that it failed to start had lost the context, or there was no handle,
      or the addition failed, or libcurl reported that. */
  lemma FailedHasReason(s: State, e: Event, u: nat)
    requires Tells(s, e, u, FailedInit)
    ensures
      || (e.Pumped? && (e.fate(u).first == Gone || !e.fate(u).initOk || e.fate(u).second == Gone || !e.fate(u).addOk))
      || (e.Done? && (e.ctx(u) == Gone || e.res == FailedInit))
      || ((e.Cancelled? || e.StoppedProcessed?) && e.ctx(u) == Gone)
  {
  }
}
