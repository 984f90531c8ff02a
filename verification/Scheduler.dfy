/** Timers that post their functions to the core thread (core/scheduler.cpp). */
module Schedulers {
  import opened Searching

  datatype Timer = Timer(id: nat, timeout: int, last: int)

  datatype Post = Post(id: nat, time: int)

  /** When and with which timeout a timer was pushed; timer `k + 1` is at position `k`. */
  datatype Birth = Birth(start: int, timeout: int)

  /** `clock` is the latest time seen, `lastTick` the latest tick. */
  datatype State = State(timers: seq<Timer>, births: seq<Birth>, posts: seq<Post>, clock: int, lastTick: int)

  // ----- Steps -----

  predicate Due(t: Timer, now: int) { now - t.last >= t.timeout }

  function Ticked(ts: seq<Timer>, now: int): (r: seq<Timer>)
    ensures |r| == |ts| && forall i :: 0 <= i < |ts| ==> r[i] == if Due(ts[i], now) then ts[i].(last := now) else ts[i]
  {
    seq(|ts|, i requires 0 <= i < |ts| => if Due(ts[i], now) then ts[i].(last := now) else ts[i])
  }

  function Posted(ts: seq<Timer>, now: int): seq<Post> {
    if ts == [] then []
    else
      var n := |ts| - 1;
      var p := Posted(ts[..n], now);
      if Due(ts[n], now) then p + [Post(ts[n].id, now)] else p
  }

  function Tick(s: State, now: int): State {
    State(Ticked(s.timers, now), s.births, s.posts + Posted(s.timers, now), now, now)
  }

  function Push(s: State, timeout: int, now: int): State {
    State(s.timers + [Timer(|s.births| + 1, timeout, now)], s.births + [Birth(now, timeout)], s.posts, now, s.lastTick)
  }

  function WithId(id: nat): Timer -> bool { (t: Timer) => t.id == id }

  function Stop(s: State, id: nat): State {
    var k := Find(s.timers, WithId(id));
    if k == |s.timers| then s else s.(timers := s.timers[..k] + s.timers[k + 1..])
  }

  datatype Event = Ticks(now: int) | Pushes(timeout: int, now: int) | Stops(id: nat)

  function Step(s: State, e: Event): State {
    match e
    case Ticks(now) => Tick(s, now)
    case Pushes(timeout, now) => Push(s, timeout, now)
    case Stops(id) => Stop(s, id)
  }

  /** The clock does not run backwards. */
  predicate Forward(s: State, e: Event) {
    match e
    case Ticks(now) => now >= s.clock
    case Pushes(_, now) => now >= s.clock
    case Stops(_) => true
  }

  // ----- What a timer posted -----

  function TimesOf(posts: seq<Post>, id: nat): seq<int> {
    if posts == [] then []
    else
      var n := |posts| - 1;
      var t := TimesOf(posts[..n], id);
      if posts[n].id == id then t + [posts[n].time] else t
  }

  lemma {:induction false} TimesConcat(a: seq<Post>, b: seq<Post>, id: nat)
    ensures TimesOf(a + b, id) == TimesOf(a, id) + TimesOf(b, id)
  {
    if b == [] {
      assert a + b == a;
    } else {
      assert (a + b)[..|a| + |b| - 1] == a + b[..|b| - 1];
      TimesConcat(a, b[..|b| - 1], id);
    }
  }

  predicate Distinct(ts: seq<Timer>) { forall i, j :: 0 <= i < j < |ts| ==> ts[i].id != ts[j].id }

  predicate Absent(ts: seq<Timer>, id: nat) { forall i :: 0 <= i < |ts| ==> ts[i].id != id }

  lemma PostedLast(ts: seq<Timer>, now: int, id: nat)
    requires ts != []
    ensures var n := |ts| - 1;
      TimesOf(Posted(ts, now), id)
        == TimesOf(Posted(ts[..n], now), id) + if Due(ts[n], now) && ts[n].id == id then [now] else []
  {
    hide Due, TimesOf;
    var n := |ts| - 1;
    TimesConcat(Posted(ts[..n], now), [Post(ts[n].id, now)], id);
    TimesOne(Post(ts[n].id, now), id);
  }

  lemma {:induction false} NonePosted(ts: seq<Timer>, now: int, id: nat)
    requires Absent(ts, id)
    ensures TimesOf(Posted(ts, now), id) == []
  {
    hide Due;
    if ts == [] {
    } else {
      NonePosted(ts[..|ts| - 1], now, id);
      PostedLast(ts, now, id);
    }
  }

  /** A tick posts for a timer at most once, and exactly when it is due. */
  lemma {:induction false} OnePosted(ts: seq<Timer>, now: int, k: nat)
    requires Distinct(ts) && k < |ts|
    ensures TimesOf(Posted(ts, now), ts[k].id) == if Due(ts[k], now) then [now] else []
  {
    hide Due, TimesOf, Posted;
    var n := |ts| - 1;
    PostedLast(ts, now, ts[k].id);
    if k == n {
      NonePosted(ts[..n], now, ts[n].id);
    } else {
      OnePosted(ts[..n], now, k);
    }
  }

  lemma TimesOne(p: Post, id: nat)
    ensures TimesOf([p], id) == if p.id == id then [p.time] else []
  {
    assert [p][..0] == [];
  }

  /** The time of a post, counting the push as number zero. */
  function At(start: int, times: seq<int>, i: nat): int
    requires i <= |times|
  {
    if i == 0 then start else times[i - 1]
  }

  /** Neighbouring posts, and the push and the first post, are at least `least` apart. */
  predicate Spaced(start: int, times: seq<int>, least: int) {
    forall i :: 0 <= i < |times| ==> At(start, times, i + 1) - At(start, times, i) >= least
  }

  /** And less than `limit` apart. */
  predicate Close(start: int, times: seq<int>, limit: int) {
    forall i :: 0 <= i < |times| ==> At(start, times, i + 1) - At(start, times, i) < limit
  }

  lemma AtSnoc(start: int, times: seq<int>, t: int)
    ensures forall i :: 0 <= i <= |times| ==> At(start, times + [t], i) == At(start, times, i)
    ensures At(start, times + [t], |times| + 1) == t
  {
  }

  /** So their number times the timeout is at most the time elapsed. */
  lemma {:induction false} SpacedElapsed(start: int, times: seq<int>, least: int)
    requires Spaced(start, times, least)
    ensures |times| * least <= At(start, times, |times|) - start
  {
    if times == [] {
    } else {
      var n := |times| - 1;
      var u := times[..n];
      assert times == u + [times[n]];
      AtSnoc(start, u, times[n]);
      hide At;
      assert forall i :: 0 <= i < n ==> At(start, times, i + 1) - At(start, times, i) >= least;
      assert Spaced(start, u, least);
      SpacedElapsed(start, u, least);
      assert (n + 1) * least == n * least + least;
      AtStart(start, u);
    }
  }

  lemma AtStart(start: int, times: seq<int>)
    ensures At(start, times, 0) == start
  {
  }

  // ----- The invariant -----

  predicate Running(s: State, id: nat) { exists i :: 0 <= i < |s.timers| && s.timers[i].id == id }

  predicate TimersOk(s: State) {
    && Distinct(s.timers)
    && forall i :: 0 <= i < |s.timers| ==> 1 <= s.timers[i].id <= |s.births|
  }

  /** A running timer remembers its last post, or its push. */
  predicate Remembers(s: State, id: nat) {
    forall i :: 0 <= i < |s.timers| && s.timers[i].id == id && 1 <= id <= |s.births| ==>
      var b, times := s.births[id - 1], TimesOf(s.posts, id);
      s.timers[i].timeout == b.timeout && s.timers[i].last == At(b.start, times, |times|) <= s.clock
  }

  ghost predicate Inv(s: State, id: nat) {
    && TimersOk(s) && Remembers(s, id) && s.lastTick <= s.clock
    && (id > |s.births| ==> TimesOf(s.posts, id) == [])
    && (1 <= id <= |s.births| ==>
         var b, times := s.births[id - 1], TimesOf(s.posts, id);
         Spaced(b.start, times, b.timeout) && At(b.start, times, |times|) <= s.clock)
  }

  const START := State([], [], [], 0, 0)

  lemma PushInv(s: State, timeout: int, now: int, id: nat)
    requires Inv(s, id) && now >= s.clock
    ensures Inv(Push(s, timeout, now), id)
  {
    hide At, TimesOf;
    var r := Push(s, timeout, now);
    AtStart(now, []);
    assert forall k :: 0 <= k < |s.births| ==> r.births[k] == s.births[k];
    assert id == |s.births| + 1 ==> TimesOf(s.posts, id) == [] && Spaced(now, [], timeout);
  }

  lemma StopInv(s: State, stopped: nat, id: nat)
    requires Inv(s, id)
    ensures Inv(Stop(s, stopped), id)
  {
    hide At, TimesOf, Find;
    var k, r := Find(s.timers, WithId(stopped)), Stop(s, stopped);
    assert k < |s.timers| ==> forall i :: 0 <= i < |r.timers| ==> r.timers[i] == s.timers[if i < k then i else i + 1];
  }

  lemma TickInv(s: State, now: int, id: nat)
    requires Inv(s, id) && now >= s.clock
    ensures Inv(Tick(s, now), id)
  {
    hide At, TimesOf, Posted;
    var r, times := Tick(s, now), TimesOf(s.posts, id);
    TimesConcat(s.posts, Posted(s.timers, now), id);
    assert times + [] == times;
    if i :| 0 <= i < |s.timers| && s.timers[i].id == id {
      OnePosted(s.timers, now, i);
      AtSnoc(s.births[id - 1].start, times, now);
    } else {
      NonePosted(s.timers, now, id);
    }
  }

  function Run(s: State, es: seq<Event>): State {
    if es == [] then s else Step(Run(s, es[..|es| - 1]), es[|es| - 1])
  }

  predicate ForwardRun(s: State, es: seq<Event>) {
    forall i :: 0 <= i < |es| ==> Forward(Run(s, es[..i]), es[i])
  }

  lemma ForwardPrefix(s: State, es: seq<Event>)
    requires es != [] && ForwardRun(s, es)
    ensures ForwardRun(s, es[..|es| - 1]) && Forward(Run(s, es[..|es| - 1]), es[|es| - 1])
  {
    hide Run, Forward;
    var u := es[..|es| - 1];
    forall i | 0 <= i < |u|
      ensures Forward(Run(s, u[..i]), u[i])
    {
      assert u[..i] == es[..i];
    }
  }

  lemma {:induction false} RunInv(es: seq<Event>, id: nat)
    requires ForwardRun(START, es)
    ensures Inv(Run(START, es), id)
  {
    if es == [] {
      assert TimesOf([], id) == [];
    } else {
      hide Inv, Tick, Push, Stop, ForwardRun;
      ForwardPrefix(START, es);
      RunInv(es[..|es| - 1], id);
      var p := Run(START, es[..|es| - 1]);
      match es[|es| - 1]
      case Ticks(now) => TickInv(p, now, id);
      case Pushes(timeout, now) => PushInv(p, timeout, now, id);
      case Stops(stopped) => StopInv(p, stopped, id);
    }
  }

  /** In every run with a clock that does not run backwards, the posts of a timer are at
      least its timeout apart, so that many timeouts fit into the time since its push. */
  lemma PostsAreSpaced(es: seq<Event>, id: nat)
    requires ForwardRun(START, es) && 1 <= id <= |Run(START, es).births|
    ensures var r := Run(START, es); var b, times := r.births[id - 1], TimesOf(r.posts, id);
      Spaced(b.start, times, b.timeout) && |times| * b.timeout <= r.clock - b.start
  {
    hide At, Run, ForwardRun, TimesOf;
    RunInv(es, id);
    var r := Run(START, es);
    SpacedElapsed(r.births[id - 1].start, TimesOf(r.posts, id), r.births[id - 1].timeout);
  }

  // ----- Ticks that come often enough -----

  predicate Prompt(s: State, e: Event, d: int) { e.Ticks? ==> e.now - s.lastTick <= d }

  predicate PromptRun(s: State, es: seq<Event>, d: int) {
    forall i :: 0 <= i < |es| ==> Prompt(Run(s, es[..i]), es[i], d)
  }

  predicate Positive(es: seq<Event>) { forall i :: 0 <= i < |es| && es[i].Pushes? ==> es[i].timeout > 0 }

  /** At the last tick no running timer was overdue. */
  predicate NoneOverdue(s: State) {
    forall i :: 0 <= i < |s.timers| ==> s.timers[i].timeout > 0 && s.lastTick - s.timers[i].last < s.timers[i].timeout
  }

  predicate CloseSoFar(s: State, id: nat, d: int) {
    1 <= id <= |s.births| ==>
      var b := s.births[id - 1]; Close(b.start, TimesOf(s.posts, id), b.timeout + d)
  }

  lemma StepClose(s: State, e: Event, id: nat, d: int)
    requires Inv(s, id) && Forward(s, e) && Prompt(s, e, d) && NoneOverdue(s) && CloseSoFar(s, id, d)
    requires e.Pushes? ==> e.timeout > 0
    ensures NoneOverdue(Step(s, e)) && CloseSoFar(Step(s, e), id, d)
  {
    hide At, TimesOf, Posted, Find;
    match e
    case Ticks(now) => TickClose(s, now, id, d);
    case Pushes(timeout, now) =>
    case Stops(stopped) =>
      var k, r := Find(s.timers, WithId(stopped)), Stop(s, stopped);
      assert k < |s.timers| ==> forall i :: 0 <= i < |r.timers| ==> r.timers[i] == s.timers[if i < k then i else i + 1];
  }

  lemma TickClose(s: State, now: int, id: nat, d: int)
    requires Inv(s, id) && now >= s.clock && now - s.lastTick <= d && NoneOverdue(s) && CloseSoFar(s, id, d)
    ensures NoneOverdue(Tick(s, now)) && CloseSoFar(Tick(s, now), id, d)
  {
    hide At, TimesOf, Posted;
    var r, times := Tick(s, now), TimesOf(s.posts, id);
    TimesConcat(s.posts, Posted(s.timers, now), id);
    assert times + [] == times;
    if i :| 0 <= i < |s.timers| && s.timers[i].id == id {
      OnePosted(s.timers, now, i);
      AtSnoc(s.births[id - 1].start, times, now);
    } else {
      NonePosted(s.timers, now, id);
    }
  }

  /** With ticks at most `d` apart and positive timeouts, a timer's posts are less than
      its timeout plus `d` apart. */
  lemma {:induction false} PostsAreClose(es: seq<Event>, id: nat, d: int)
    requires ForwardRun(START, es) && PromptRun(START, es, d) && Positive(es)
    ensures NoneOverdue(Run(START, es)) && CloseSoFar(Run(START, es), id, d)
  {
    hide Step, Inv, Forward, ForwardRun, NoneOverdue, CloseSoFar, Prompt;
    if es == [] {
      StartClose(id, d);
    } else {
      var u := es[..|es| - 1];
      ForwardPrefix(START, es);
      forall i | 0 <= i < |u|
        ensures Prompt(Run(START, u[..i]), u[i], d)
      {
        assert u[..i] == es[..i];
      }
      RunInv(u, id);
      PostsAreClose(u, id, d);
      StepClose(Run(START, u), es[|es| - 1], id, d);
    }
  }

  lemma StartClose(id: nat, d: int)
    ensures NoneOverdue(START) && CloseSoFar(START, id, d)
  {
  }

  // ----- Stopped timers -----

  lemma StepSilent(s: State, e: Event, id: nat)
    requires TimersOk(s) && !Running(s, id) && 1 <= id <= |s.births|
    ensures var r := Step(s, e);
      TimersOk(r) && !Running(r, id) && |r.births| >= |s.births| && TimesOf(r.posts, id) == TimesOf(s.posts, id)
  {
    hide TimesOf, Posted, Find;
    match e
    case Ticks(now) =>
      TimesConcat(s.posts, Posted(s.timers, now), id);
      NonePosted(s.timers, now, id);
      assert TimesOf(s.posts, id) + [] == TimesOf(s.posts, id);
    case Pushes(timeout, now) => PushSilent(s, timeout, now, id);
    case Stops(stopped) =>
      var k, r := Find(s.timers, WithId(stopped)), Stop(s, stopped);
      assert k < |s.timers| ==> forall i :: 0 <= i < |r.timers| ==> r.timers[i] == s.timers[if i < k then i else i + 1];
  }

  lemma PushSilent(s: State, timeout: int, now: int, id: nat)
    requires TimersOk(s) && !Running(s, id) && 1 <= id <= |s.births|
    ensures TimersOk(Push(s, timeout, now)) && !Running(Push(s, timeout, now), id)
  {
  }

  /** A timer that was stopped never posts again. */
  lemma {:induction false} StoppedStaysSilent(s: State, es: seq<Event>, id: nat)
    requires TimersOk(s) && !Running(s, id) && 1 <= id <= |s.births|
    ensures var r := Run(s, es);
      TimersOk(r) && !Running(r, id) && |r.births| >= |s.births| && TimesOf(r.posts, id) == TimesOf(s.posts, id)
  {
    hide TimesOf, TimersOk, Running, Step;
    if es == [] {
    } else {
      StoppedStaysSilent(s, es[..|es| - 1], id);
      StepSilent(Run(s, es[..|es| - 1]), es[|es| - 1], id);
    }
  }

  lemma StopStops(s: State, id: nat)
    requires TimersOk(s)
    ensures !Running(Stop(s, id), id) && TimersOk(Stop(s, id))
  {
    hide Find;
    var k, r := Find(s.timers, WithId(id)), Stop(s, id);
    assert k < |s.timers| ==> forall i :: 0 <= i < |r.timers| ==> r.timers[i] == s.timers[if i < k then i else i + 1];
  }

  /** And every other timer stays as it is. */
  lemma StopKeepsOthers(s: State, id: nat, t: Timer)
    requires t.id != id
    ensures t in Stop(s, id).timers <==> t in s.timers
    ensures Stop(s, id).posts == s.posts
  {
    hide Find;
    var k := Find(s.timers, WithId(id));
    if k < |s.timers| {
      assert s.timers == s.timers[..k] + [s.timers[k]] + s.timers[k + 1..];
    }
  }

  // ----- The scheduler -----

  class Scheduler {
    var timers: seq<Timer>
    var posts: seq<Post>
    ghost var births: seq<Birth>
    ghost var clock: int
    ghost var lastTick: int
    var lastId: nat

    ghost function Seen(): State
      reads this
    {
      State(timers, births, posts, clock, lastTick)
    }

    ghost predicate Valid()
      reads this
    {
      lastId == |births|
    }

    constructor ()
      ensures Valid() && Seen() == START
    {
      timers, posts, births, clock, lastTick, lastId := [], [], [], 0, 0, 0;
    }

    /** The body of the thread's loop after a time-out. */
    method OnTimeout(now: int)
      requires Valid()
      modifies `timers, `posts, `clock, `lastTick
      ensures Valid() && Seen() == Tick(old(Seen()), now)
    {
      ghost var ts := timers;
      for i := 0 to |timers|
        invariant |timers| == |ts| && posts == old(posts) + Posted(ts[..i], now)
        invariant forall j :: 0 <= j < |ts| ==> timers[j] == if j < i then Ticked(ts, now)[j] else ts[j]
      {
        assert ts[..i + 1][..i] == ts[..i];
        if now - timers[i].last >= timers[i].timeout {
          posts := posts + [Post(timers[i].id, now)];
          timers := timers[i := timers[i].(last := now)];
        }
      }
      assert ts[..|ts|] == ts;
      assert timers == Ticked(ts, now);
      clock, lastTick := now, now;
    }

    method PushTimer(timeout: int, now: int) returns (id: nat)
      requires Valid()
      modifies `timers, `births, `clock, `lastId
      ensures Valid() && id == |births| && Seen() == Push(old(Seen()), timeout, now)
    {
      lastId := lastId + 1;
      id := lastId;
      timers := timers + [Timer(id, timeout, now)];
      births := births + [Birth(now, timeout)];
      clock := now;
    }

    method StopTimer(id: nat)
      requires Valid()
      modifies `timers
      ensures Valid() && Seen() == Stop(old(Seen()), id)
    {
      var k := 0;
      while k < |timers| && timers[k].id != id
        invariant k <= |timers| && forall i :: 0 <= i < k ==> timers[i].id != id
      {
        k := k + 1;
      }
      FindIs(timers, WithId(id), k);
      if k < |timers| {
        timers := timers[..k] + timers[k + 1..];
      }
    }
  }
}
