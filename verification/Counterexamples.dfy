/** Concrete inputs on which the program does not keep a promise one might expect. */
module Counterexamples {
  import opened Options
  import opened MessageHeaders
  import opened ArchiveStore
  import opened ArchiveChain
  import opened ArchiveIndexes
  import opened ArchiveLaws
  import CollectionHeap
  import Collections
  import opened CurlQueue
  import opened CurlMulti
  import CurlRuns

  const PLAIN := Flags(false, false, false, false, false, 0)

  function Message(id: int, prev: int, time: int): Header {
    Header(id, PLAIN, time, prev, 100, 10, "1", false, [])
  }

  function PatchOf(id: int, time: int): Header {
    Header(id, PLAIN.(patch := true, modified := true), time, -1, -1, 0, "1", false, [])
  }

  /** A message, its modification and the message again with another time: an index
      that is saved and loaded comes back with the modification's time. */
  lemma SavedIndexComesBackChanged(blocks: seq<Block>)
    requires var h := Merge(Merge(Message(1, -1, 10), PatchOf(1, 20)), Message(1, -1, 30));
      Sound(blocks) && ReadRecords(blocks) == AllRecords([h])
    ensures var h := Merge(Merge(Message(1, -1, 10), PatchOf(1, 20)), Message(1, -1, 30));
      IndexOk([h]) && InsertAll([], ReadRecords(blocks)) != [h]
  {
    var m, p, r := Message(1, -1, 10), PatchOf(1, 20), Message(1, -1, 30);
    var h := Merge(Merge(m, p), r);
    MergeOk(m, p);
    MergeOk(Merge(m, p), r);
    LaterHeaderUnstable(m, p, r);
    SaveLoadRoundTrip([h], blocks);
    assert !Stable([h][0]);
  }

  const FIRST := Message(1, -1, 10)
  const PATCH := PatchOf(2, 20)
  const LAST := Message(3, 1, 30)

  lemma ThreeAreHoleFree()
    ensures var s := [FIRST, PATCH, LAST]; IndexOk(s) && HoleFree(s)
  {
    var s := [FIRST, PATCH, LAST];
    assert s == [FIRST] + ([PATCH] + [LAST]) && [LAST] + [] == [LAST];
    ChainFront(FIRST, [PATCH] + [LAST]);
    ChainFront(PATCH, [LAST]);
    ChainFront(LAST, []);
    EmptyChain([]);
    assert NonPatch(s) == [FIRST, LAST] by {
      hide NonPatch;
      assert [] + [LAST] == [LAST] && [LAST] + [] == [LAST];
    }
  }

  /** A message, a lone patch and a message linked to the first: deleting up to the
      patch leaves a message whose predecessor is gone, a hole. */
  lemma DeletingUpToPatchLeavesHole()
    ensures var s := [FIRST, PATCH, LAST];
      IndexOk(s) && HoleFree(s) && AfterDelete(s, 2) == [LAST] && !HoleFree(AfterDelete(s, 2))
  {
    var s := [FIRST, PATCH, LAST];
    ThreeAreHoleFree();
    OneIsHole();
    hide HoleFree, NonPatch, LowerBound;
    ArchiveIndex.BoundUnique(s, 2, 1);
    ArchiveIndex.BoundUnique(s, 3, 2);
    assert s[2..] == [LAST];
  }

  lemma OneIsHole()
    ensures !HoleFree([LAST])
  {
    ChainFront(LAST, []);
    EmptyChain([]);
    assert [LAST] + [] == [LAST];
    assert NonPatch([LAST]) == [LAST];
    assert Broken([LAST], 0);
  }

  /** A message, a lone patch, and messages each linked to the one before, with ids from 1. */
  function LinkedAt(i: nat): Header {
    if i == 1 then PATCH else Message(i + 1, if i == 0 then -1 else if i == 2 then 1 else i, 10)
  }

  function Linked(n: nat): (s: seq<Header>)
    ensures |s| == n && forall i :: 0 <= i < n ==> s[i] == LinkedAt(i)
  {
    seq(n, i requires 0 <= i < n => LinkedAt(i))
  }

  lemma LinkedOk(n: nat)
    ensures IndexOk(Linked(n))
  {
  }

  lemma LinkedSnoc(n: nat)
    requires n > 0
    ensures NonPatch(Linked(n)) == NonPatch(Linked(n - 1)) + if n == 2 then [] else [LinkedAt(n - 1)]
    ensures LinkedAt(n - 1).id == n && LinkedAt(n - 1).prev == if n <= 2 then -1 else if n == 3 then 1 else n - 1
  {
    assert Linked(n)[..n - 1] == Linked(n - 1);
    assert IsPatch(LinkedAt(n - 1)) <==> n == 2;
  }

  lemma {:induction false} LinkedHoleFree(n: nat)
    requires n > 0
    ensures var v := NonPatch(Linked(n)); v != [] && Intact(v) && v[|v| - 1].id == if n == 2 then 1 else n
  {
    hide NonPatch, Linked, LinkedAt;
    LinkedSnoc(n);
    if n == 1 {
      NothingLinked();
    } else {
      LinkedHoleFree(n - 1);
      if n == 2 {
        assert NonPatch(Linked(n - 1)) + [] == NonPatch(Linked(n - 1));
      } else {
        IntactSnoc(NonPatch(Linked(n - 1)), LinkedAt(n - 1));
      }
    }
  }

  lemma NothingLinked()
    ensures NonPatch(Linked(0)) == []
  {
  }

  lemma IntactSnoc(v: seq<Header>, h: Header)
    requires Intact(v) && v != [] && h.prev == v[|v| - 1].id
    ensures Intact(v + [h])
  {
    var w := v + [h];
    forall i | 0 <= i < |w|
      ensures !Broken(w, i)
    {
      if i < |v| {
        assert !Broken(v, i);
      }
    }
  }

  /** One message too many, the second of them a patch: trimming drops the first message and
      leaves the third without its predecessor. */
  lemma TrimmingBeforePatchLeavesHole()
    ensures var s := Linked(MAX_INDEX_SIZE + 1); IndexOk(s) && HoleFree(s) && !HoleFree(AfterTrim(s))
  {
    hide AfterTrim, IndexOk, NonPatch;
    var s := Linked(MAX_INDEX_SIZE + 1);
    LinkedOk(|s|);
    LinkedHoleFree(|s|);
    HoleFreeAfterTrim(s);
    assert s[..1] == Linked(1) && s[1] == PATCH && IsPatch(PATCH);
    LinkedSnoc(1);
  }

  const TASK := Task(0, 100, 1)
  const HALFWAY := Fate(Running, true, 7, Running, false)

  const QUEUED := State([TASK], map[], {}, {}, false, [[]])
  const ADMITTED := State([], map[7 := TASK], {}, {}, false, [[FailedInit]])

  lemma HalfwayAdmitted(fate: nat -> Fate)
    requires fate(0) == HALFWAY
    ensures AdmitFirst(QUEUED, fate) == ADMITTED
  {
    var r := AdmitFirst(QUEUED, fate);
    assert QUEUED.queue[1..] == [];
    assert r.results == [[FailedInit]] by {
      assert [] + [FailedInit] == [FailedInit];
      assert r.results[0] == [FailedInit];
    }
    assert r.tasks == map[7 := TASK];
    assert r.live == {};
  }

  lemma HalfwayPumped(fate: nat -> Fate)
    requires fate(0) == HALFWAY
    ensures Pump(QUEUED, fate) == ADMITTED && Fresh(QUEUED, fate)
  {
    HalfwayAdmitted(fate);
    assert MayAdmit(QUEUED) && !MayAdmit(ADMITTED);
    assert Pump(ADMITTED, fate) == ADMITTED && Fresh(ADMITTED, fate);
  }

  lemma HalfwayQueued()
    ensures Submit(CurlMulti.START, 100, 1) == QUEUED && Inv(QUEUED)
  {
    CurlRuns.StartOk();
    SubmitInv(CurlMulti.START, 100, 1);
    hide Inv;
  }

  lemma HalfwayRun(fate: nat -> Fate)
    requires fate(0) == HALFWAY
    ensures var es := [CurlRuns.Submitted(100, 1), CurlRuns.Pumped(fate)];
      CurlRuns.PossibleRun(CurlMulti.START, es) && CurlRuns.Run(CurlMulti.START, es) == ADMITTED
  {
    hide Inv, Pump, Fresh, Submit;
    var es := [CurlRuns.Submitted(100, 1), CurlRuns.Pumped(fate)];
    HalfwayQueued();
    HalfwayPumped(fate);
    var rest := es[1..];
    assert rest[0] == CurlRuns.Pumped(fate) && rest[1..] == [];
    assert CurlRuns.Step(QUEUED, rest[0]) == ADMITTED && CurlRuns.Run(ADMITTED, rest[1..]) == ADMITTED;
    assert CurlRuns.Run(QUEUED, rest) == ADMITTED && CurlRuns.PossibleRun(QUEUED, rest);
    assert CurlRuns.Step(CurlMulti.START, es[0]) == QUEUED;
  }

  /** A submitted task whose addition to libcurl fails, then a cancellation: two results. */
  lemma TwoResultsForOneTask(fate: nat -> Fate, ctx: nat -> Context)
    requires fate(0) == HALFWAY
    ensures var es := [CurlRuns.Submitted(100, 1), CurlRuns.Pumped(fate)];
      && CurlRuns.PossibleRun(CurlMulti.START, es)
      && var r := CurlRuns.Run(CurlMulti.START, es);
         |r.results| == |Cancel(r, ctx).results| == 1 && |Cancel(r, ctx).results[0]| == 2
  {
    hide Inv, Cancel, AdmitFirst, CurlRuns.Run, CurlRuns.PossibleRun;
    HalfwayRun(fate);
    HalfwayQueued();
    HalfwayAdmitted(fate);
    CurlRuns.FailedAdditionDeliversTwice(QUEUED, fate, ctx);
  }

  const ONE_OWNER := [
    CollectionHeap.Live(1, CollectionHeap.Value(Some(1))),
    CollectionHeap.Live(1, CollectionHeap.Collection([]))]

  /** A value that is the only owner of a collection: setting the collection again
      touches freed memory, although the caller owns the value. */
  lemma SettingOwnContentAgain()
    ensures var objs := ONE_OWNER;
      CollectionHeap.Counted(objs, multiset{0}) && Collections.SetContent(objs, 0, Some(1)).None?
  {
    var objs := ONE_OWNER;
    forall a: nat
      ensures CollectionHeap.CountedAt(objs, multiset{0}, a)
    {
      assert objs[..1] == [objs[0]] && objs[..1][..0] == [];
      assert CollectionHeap.Values([]) == [];
      assert CollectionHeap.Refs(objs[..1], a) == CollectionHeap.Holds(objs[0], a);
    }
    Collections.SetContentBalanced(objs, 0, Some(1));
    CollectionHeap.StoreAgainUnsafeIffOnlyOwner(
      objs, multiset{0}, 0, CollectionHeap.Value(None), 1, CollectionHeap.Value(Some(1)));
  }
}
