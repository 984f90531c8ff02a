/** The queue of requests ordered by priority (core/curl_multi_handler.cpp). */
module CurlQueue {
  import opened Searching

  /** `uid` numbers the submissions; `id` is what the caller raises a request by. */
  datatype Task = Task(uid: nat, priority: int, id: int)

  /** Smaller is more urgent. */
  const FETCH := 0
  const PROTOCOL := 2
  const HIGHEST := 50
  const DEFAULT := 150

  predicate Sorted(q: seq<Task>) { forall i, j :: 0 <= i < j < |q| ==> q[i].priority <= q[j].priority }

  /** By priority, and in the order of submission within a priority. */
  predicate InOrder(q: seq<Task>) {
    forall i, j :: 0 <= i < j < |q| ==>
      q[i].priority < q[j].priority || (q[i].priority == q[j].priority && q[i].uid < q[j].uid)
  }

  /** The first position whose task is less urgent. */
  function Place(q: seq<Task>, priority: int): (k: nat)
    ensures k <= |q| && (forall i :: 0 <= i < k ==> q[i].priority <= priority)
    ensures k < |q| ==> priority < q[k].priority
  {
    if q == [] || priority < q[0].priority then 0 else 1 + Place(q[1..], priority)
  }

  function Insert(q: seq<Task>, t: Task): seq<Task> {
    var k := Place(q, t.priority);
    q[..k] + [t] + q[k..]
  }

  function WithId(id: int): Task -> bool { (t: Task) => t.id == id }

  function Raise(q: seq<Task>, id: int): seq<Task> {
    var k := Find(q, WithId(id));
    if k == |q| then q else Insert(q[..k] + q[k + 1..], q[k])
  }

  lemma PlaceIs(q: seq<Task>, priority: int, k: nat)
    requires k <= |q| && (k < |q| ==> priority < q[k].priority)
    requires forall i :: 0 <= i < k ==> q[i].priority <= priority
    ensures Place(q, priority) == k
  {
  }

  lemma InsertParts(q: seq<Task>, t: Task)
    ensures var k, r := Place(q, t.priority), Insert(q, t);
      && multiset(r) == multiset(q) + multiset{t} && |r| == |q| + 1
      && r[k] == t && r[..k] + r[k + 1..] == q
      && forall i :: 0 <= i < |q| ==> r[if i < k then i else i + 1] == q[i]
  {
    hide Place;
    var k, r := Place(q, t.priority), Insert(q, t);
    assert q == q[..k] + q[k..];
    assert r[..k] + r[k + 1..] == q;
  }

  /** A submitted task goes behind everything at least as urgent and before everything
      less urgent; the others keep their order. */
  lemma InsertSorted(q: seq<Task>, t: Task)
    requires Sorted(q)
    ensures var k, r := Place(q, t.priority), Insert(q, t);
      && Sorted(r) && multiset(r) == multiset(q) + multiset{t} && |r| == |q| + 1
      && r[k] == t && r[..k] + r[k + 1..] == q
      && forall i :: 0 <= i < |r| && i != k ==> (i < k <==> r[i].priority <= t.priority)
  {
    hide Place, Insert, Sorted;
    InsertParts(q, t);
    var k, r := Place(q, t.priority), Insert(q, t);
    assert forall i :: 0 <= i < k ==> r[i] == q[i];
    forall i | k < i < |r|
      ensures r[i] == q[i - 1] && q[i - 1].priority > t.priority
    {
      assert (r[..k] + r[k + 1..])[i - 1] == r[i];
      SortedFrom(q, k, i - 1);
    }
    OnePlaced(q, t, k, r);
  }

  lemma SortedFrom(q: seq<Task>, k: nat, i: nat)
    requires Sorted(q) && k <= i < |q|
    ensures q[k].priority <= q[i].priority
  {
  }

  lemma OnePlaced(q: seq<Task>, t: Task, k: nat, r: seq<Task>)
    requires Sorted(q) && k <= |q| && |r| == |q| + 1 && r[k] == t
    requires forall i :: 0 <= i < k ==> r[i] == q[i] && q[i].priority <= t.priority
    requires forall i :: k < i < |r| ==> r[i] == q[i - 1] && q[i - 1].priority > t.priority
    ensures Sorted(r)
  {
  }

  /** Submissions alone keep the queue first come, first served within a priority. */
  lemma {:induction false} InsertInOrder(q: seq<Task>, t: Task)
    requires InOrder(q) && forall i :: 0 <= i < |q| ==> q[i].uid < t.uid
    ensures InOrder(Insert(q, t))
  {
    hide Place;
    var k, r := Place(q, t.priority), Insert(q, t);
    assert forall i :: 0 <= i < k ==> r[i] == q[i];
    assert forall i :: k < i < |r| ==> r[i] == q[i - 1];
    assert k < |q| ==> forall i :: k < i < |q| ==> q[k].priority <= q[i].priority;
  }

  lemma RemoveSorted(q: seq<Task>, k: nat)
    requires Sorted(q) && k < |q|
    ensures Sorted(q[..k] + q[k + 1..]) && multiset(q) == multiset(q[..k] + q[k + 1..]) + multiset{q[k]}
  {
    var w := q[..k] + q[k + 1..];
    assert forall i :: 0 <= i < |w| ==> w[i] == q[if i < k then i else i + 1];
    assert q == q[..k] + [q[k]] + q[k + 1..];
  }

  /** Raising loses and invents no task, keeps the order by priority and the order of
      the other tasks. As priorities do not change, the raised task does not move
      forward: it ends behind all tasks of its own priority. */
  lemma RaiseKeepsQueue(q: seq<Task>, id: int)
    requires Sorted(q)
    ensures Sorted(Raise(q, id)) && multiset(Raise(q, id)) == multiset(q)
    ensures var k, r := Find(q, WithId(id)), Raise(q, id);
      k < |q| ==> exists p ::
        && k <= p < |q| && r[p] == q[k] && r[..p] + r[p + 1..] == q[..k] + q[k + 1..]
        && forall i :: p < i < |q| ==> r[i].priority > q[k].priority
  {
    hide Place, Find, Sorted;
    var k, r := Find(q, WithId(id)), Raise(q, id);
    if k < |q| {
      var w := q[..k] + q[k + 1..];
      RemoveSorted(q, k);
      InsertSorted(w, q[k]);
      var p := Place(w, q[k].priority);
      NotForward(q, k);
      assert |r| == |q|;
      assert k <= p < |q| && r[p] == q[k] && r[..p] + r[p + 1..] == w;
    }
  }

  lemma NotForward(q: seq<Task>, k: nat)
    requires Sorted(q) && k < |q|
    ensures Place(q[..k] + q[k + 1..], q[k].priority) >= k
  {
    hide Place;
    var w := q[..k] + q[k + 1..];
    assert forall i :: 0 <= i < k ==> w[i] == q[i];
  }
}
