/** Requests run one after the other on lanes of their own (core/curl_easy_handler.cpp). */
module CurlEasy {
  import opened CurlQueue

  datatype Lane = Fetch | Protocol | Top | Medium | Low

  function Route(priority: int): Lane {
    if priority == FETCH then Fetch
    else if priority <= PROTOCOL then Protocol
    else if priority <= HIGHEST then Top
    else if priority <= DEFAULT then Medium
    else Low
  }

  /** `waiting` and `ran` by lane; the three pools are handed their tasks, what they do
      with them is not modelled. A worker that has left its loop runs nothing more. */
  datatype Lanes = Lanes(
    waiting: map<Lane, seq<Task>>,
    ran: map<Lane, seq<Task>>,
    exited: set<Lane>,
    stopped: bool,
    cancelled: seq<Task>)

  const NOTHING: map<Lane, seq<Task>> := map[Fetch := [], Protocol := [], Top := [], Medium := [], Low := []]

  predicate Total(m: map<Lane, seq<Task>>) { forall l: Lane :: l in m }

  predicate Ok(s: Lanes) { Total(s.waiting) && Total(s.ran) }

  lemma AllLanes()
    ensures Total(NOTHING)
  {
    forall l: Lane
      ensures l in NOTHING
    {
      match l
      case Fetch =>
      case Protocol =>
      case Top =>
      case Medium =>
      case Low =>
    }
  }

  function Start(): (s: Lanes)
    ensures Ok(s)
  {
    AllLanes();
    Lanes(NOTHING, NOTHING, {}, false, [])
  }

  datatype Event = Added(task: Task) | Turn(lane: Lane) | Stop

  /** One step: a submission, one turn of the fetch or protocol worker, or the stop. */
  function Step(s: Lanes, e: Event): (r: Lanes)
    requires Ok(s)
    ensures Ok(r)
  {
    match e
    case Added(t) =>
      if s.stopped then s.(cancelled := s.cancelled + [t])
      else var l := Route(t.priority); s.(waiting := s.waiting[l := s.waiting[l] + [t]])
    case Turn(l) =>
      if l in s.exited || (l != Fetch && l != Protocol) then s
      else if s.waiting[l] != [] then
        s.(waiting := s.waiting[l := s.waiting[l][1..]], ran := s.ran[l := s.ran[l] + [s.waiting[l][0]]])
      else if s.stopped then s.(exited := s.exited + {l})
      else s
    case Stop => s.(stopped := true)
  }

  function Run(s: Lanes, es: seq<Event>): (r: Lanes)
    requires Ok(s)
    ensures Ok(r)
  {
    if es == [] then s else Step(Run(s, es[..|es| - 1]), es[|es| - 1])
  }

  // ----- The history of a run, without any queue -----

  predicate StoppedBy(es: seq<Event>) { exists i :: 0 <= i < |es| && es[i].Stop? }

  /** The priorities that a lane serves. */
  predicate Serves(l: Lane, priority: int) {
    match l
    case Fetch => priority == 0
    case Protocol => priority <= 2 && priority != 0
    case Top => 2 < priority <= 50
    case Medium => 50 < priority <= 150
    case Low => 150 < priority
  }

  /** The tasks submitted before the stop that belong to a lane. */
  function AcceptedOn(es: seq<Event>, l: Lane): seq<Task> {
    if es == [] then []
    else
      var n := |es| - 1;
      AcceptedOn(es[..n], l) +
      if es[n].Added? && !StoppedBy(es[..n]) && Serves(l, es[n].task.priority) then [es[n].task] else []
  }

  function RefusedBy(es: seq<Event>): seq<Task> {
    if es == [] then []
    else
      var n := |es| - 1;
      RefusedBy(es[..n]) + if es[n].Added? && StoppedBy(es[..n]) then [es[n].task] else []
  }

  lemma StoppedSnoc(es: seq<Event>)
    requires es != []
    ensures StoppedBy(es) <==> StoppedBy(es[..|es| - 1]) || es[|es| - 1].Stop?
  {
    var n := |es| - 1;
    if i :| 0 <= i < |es| && es[i].Stop? {
      assert i < n ==> es[..n][i].Stop?;
    }
    if StoppedBy(es[..n]) {
      var i :| 0 <= i < n && es[..n][i].Stop?;
      assert es[i].Stop?;
    }
  }

  /** On every lane the tasks that ran, followed by those still waiting, are exactly the
      accepted ones in the order of their submission: each runs once, first come first
      served. What came after the stop was cancelled. A worker leaves only after the
      stop and with nothing waiting, and nothing is added to its lane any more. */
  lemma {:induction false} LanesAreFifo(es: seq<Event>, l: Lane)
    ensures var s := Run(Start(), es);
      && s.ran[l] + s.waiting[l] == AcceptedOn(es, l)
      && s.stopped == StoppedBy(es) && s.cancelled == RefusedBy(es)
      && (l in s.exited ==> s.stopped && s.waiting[l] == [])
  {
    if es == [] {
    } else {
      var n := |es| - 1;
      LanesAreFifo(es[..n], l);
      StoppedSnoc(es);
      hide StoppedBy;
      StepKeeps(Run(Start(), es[..n]), es[n], l);
    }
  }

  lemma StepKeeps(s: Lanes, e: Event, l: Lane)
    requires Ok(s) && (l in s.exited ==> s.stopped && s.waiting[l] == [])
    ensures var r := Step(s, e);
      && r.ran[l] + r.waiting[l] == s.ran[l] + s.waiting[l] +
           (if e.Added? && !s.stopped && Serves(l, e.task.priority) then [e.task] else [])
      && r.stopped == (s.stopped || e.Stop?)
      && r.cancelled == s.cancelled + (if e.Added? && s.stopped then [e.task] else [])
      && (l in r.exited ==> r.stopped && r.waiting[l] == [])
  {
    match e
    case Added(t) =>
    case Turn(k) => TurnKeeps(s, k, l);
    case Stop =>
  }

  lemma TurnKeeps(s: Lanes, k: Lane, l: Lane)
    requires Ok(s) && (l in s.exited ==> s.stopped && s.waiting[l] == [])
    ensures var r := Step(s, Turn(k));
      && r.ran[l] + r.waiting[l] == s.ran[l] + s.waiting[l]
      && r.stopped == s.stopped && r.cancelled == s.cancelled
      && (l in r.exited ==> r.stopped && r.waiting[l] == [])
  {
  }

  function Turns(l: Lane, n: nat): seq<Event> { seq(n, _ => Turn(l)) }

  /** A worker that has not left runs all that waits on its lane, one task a turn: after enough
      turns everything accepted there has run, in order. */
  lemma {:induction false} TurnsDrain(es: seq<Event>, l: Lane, n: nat)
    requires (l == Fetch || l == Protocol) && l !in Run(Start(), es).exited
    requires n == |Run(Start(), es).waiting[l]|
    ensures Run(Start(), es + Turns(l, n)).ran[l] == AcceptedOn(es, l)
  {
    LanesAreFifo(es, l);
    TurnsRun(es, l, n);
    var s := Run(Start(), es);
    assert s.waiting[l][..n] == s.waiting[l];
  }

  lemma {:induction false} TurnsRun(es: seq<Event>, l: Lane, n: nat)
    requires (l == Fetch || l == Protocol) && l !in Run(Start(), es).exited && n <= |Run(Start(), es).waiting[l]|
    ensures var s, r := Run(Start(), es), Run(Start(), es + Turns(l, n));
      && l !in r.exited && r.waiting[l] == s.waiting[l][n..] && r.ran[l] == s.ran[l] + s.waiting[l][..n]
  {
    hide Step;
    var all := es + Turns(l, n);
    if n == 0 {
      assert all == es;
    } else {
      TurnsRun(es, l, n - 1);
      assert all[..|all| - 1] == es + Turns(l, n - 1) && all[|all| - 1] == Turn(l);
      var s, p := Run(Start(), es), Run(Start(), es + Turns(l, n - 1));
      TurnRuns(p, l);
      assert p.waiting[l][0] == s.waiting[l][n - 1];
      assert s.waiting[l][..n] == s.waiting[l][..n - 1] + [s.waiting[l][n - 1]];
      assert s.waiting[l][n - 1..][1..] == s.waiting[l][n..];
      assert s.ran[l] + s.waiting[l][..n] == (s.ran[l] + s.waiting[l][..n - 1]) + [s.waiting[l][n - 1]];
    }
  }

  lemma TurnRuns(s: Lanes, l: Lane)
    requires Ok(s) && (l == Fetch || l == Protocol) && l !in s.exited && s.waiting[l] != []
    ensures var r := Step(s, Turn(l));
      r.exited == s.exited && r.waiting[l] == s.waiting[l][1..] && r.ran[l] == s.ran[l] + [s.waiting[l][0]]
  {
  }

  // ----- The handler -----

  class CurlEasyHandler {
    var waiting: map<Lane, seq<Task>>
    var ran: map<Lane, seq<Task>>
    var exited: set<Lane>
    var stopped: bool
    var cancelled: seq<Task>

    function Seen(): Lanes
      reads this
    {
      Lanes(waiting, ran, exited, stopped, cancelled)
    }

    constructor ()
      ensures Seen() == Start()
    {
      waiting, ran, exited, stopped, cancelled := NOTHING, NOTHING, {}, false, [];
    }

    method AddTask(t: Task)
      requires Ok(Seen())
      modifies this
      ensures Seen() == Step(old(Seen()), Added(t))
    {
      if stopped {
        cancelled := cancelled + [t];
        return;
      }
      if t.priority == FETCH {
        waiting := waiting[Fetch := waiting[Fetch] + [t]];
      } else if t.priority <= PROTOCOL {
        waiting := waiting[Protocol := waiting[Protocol] + [t]];
      } else if t.priority <= HIGHEST {
        waiting := waiting[Top := waiting[Top] + [t]];
      } else if t.priority <= DEFAULT {
        waiting := waiting[Medium := waiting[Medium] + [t]];
      } else {
        waiting := waiting[Low := waiting[Low] + [t]];
      }
    }

    method Cleanup()
      requires Ok(Seen())
      modifies this
      ensures Seen() == Step(old(Seen()), Stop)
    {
      stopped := true;
    }

    /** One turn of the fetch or the protocol worker. */
    method WorkerTurn(l: Lane) returns (more: bool)
      requires Ok(Seen()) && (l == Fetch || l == Protocol) && l !in exited
      modifies this
      ensures Seen() == Step(old(Seen()), Turn(l)) && more == (l !in exited)
    {
      if stopped && waiting[l] == [] {
        exited := exited + {l};
        return false;
      }
      if waiting[l] != [] {
        var next := waiting[l][0];
        waiting := waiting[l := waiting[l][1..]];
        ran := ran[l := ran[l] + [next]];
      }
      return true;
    }

    /** After the stop a worker runs everything that still waits on its lane and leaves. */
    method RunToExit(l: Lane)
      requires Ok(Seen()) && stopped && (l == Fetch || l == Protocol) && l !in exited
      modifies this
      ensures Ok(Seen()) && stopped && exited == old(exited) + {l} && cancelled == old(cancelled)
      ensures ran == old(ran)[l := old(ran)[l] + old(waiting)[l]] && waiting == old(waiting)[l := []]
    {
      var more := true;
      while more
        invariant Ok(Seen()) && stopped && cancelled == old(cancelled)
        invariant exited == if more then old(exited) else old(exited) + {l}
        invariant ran == old(ran)[l := ran[l]] && waiting == old(waiting)[l := waiting[l]]
        invariant ran[l] + waiting[l] == old(ran)[l] + old(waiting)[l] && (!more ==> waiting[l] == [])
        decreases more, |waiting[l]|
      {
        more := WorkerTurn(l);
      }
      assert ran[l] == old(ran)[l] + old(waiting)[l];
    }
  }
}
