/** What deletions, trimming and repeated loads mean for an archive index. */
module ArchiveLaws {
  import opened MessageHeaders
  import opened ArchiveStore
  import opened ArchiveChain
  import opened ArchiveIndexes

  // ----- Deleting and trimming -----

  /** Deleting up to `t` leaves exactly the ids greater than `t`, whether or not `t` is indexed. */
  lemma DeleteKeepsGreater(s: seq<Header>, t: int)
    requires IndexOk(s)
    ensures IndexOk(AfterDelete(s, t))
    ensures forall id :: id in Ids(AfterDelete(s, t)) <==> id in Ids(s) && id > t
  {
    hide HeaderOk;
    var k := LowerBound(s, t + 1);
    DroppedIds(s, k, Has(s, t) && k < |s| && s[k].prev == t);
    forall id
      ensures id in Ids(s[k..]) <==> id in Ids(s) && id > t
    {
      if id in Ids(s) && id > t {
        var i :| 0 <= i < |s| && s[i].id == id;
        assert s[k..][i - k] == s[i];
      }
    }
  }

  lemma NothingWholeLeft(s: seq<Header>, k: nat, cut: bool)
    requires k <= |s| && NonPatch(s[k..]) == []
    ensures !HoleFree(Dropped(s, k, cut))
  {
    hide NonPatch, Intact;
    CutChain(s[k..]);
    CutFirstLength(NonPatch(s[k..]));
  }

  /** What a deletion leaves of a hole-free index is hole-free exactly when it holds a
      whole message and either no whole message was deleted, or `t` is itself an indexed
      whole message and the first survivor is a whole message too. */
  lemma HoleFreeAfterDelete(s: seq<Header>, t: int)
    requires IndexOk(s) && HoleFree(s)
    ensures var k := LowerBound(s, t + 1);
      HoleFree(AfterDelete(s, t)) <==>
        && NonPatch(s[k..]) != []
        && (NonPatch(s[..k]) == [] || (Has(s, t) && !IsPatch(s[LowerBound(s, t)]) && !IsPatch(s[k])))
  {
    hide NonPatch, HeaderOk, HoleFree, CutFirst;
    var k := LowerBound(s, t + 1);
    var cut := Has(s, t) && k < |s| && s[k].prev == t;
    if NonPatch(s[k..]) == [] {
      NothingWholeLeft(s, k, cut);
      return;
    }
    EmptyChain(s[k..]);
    HoleFreeAfterDrop(s, k, cut);
    if NonPatch(s[..k]) != [] && Has(s, t) && !IsPatch(s[k]) {
      ArchiveIndex.BoundNext(s, t);
      SurvivorNames(s, k);
      NewestNames(s, k, t);
    }
  }

  /** In a hole-free index a whole message names the whole message before it. */
  lemma SurvivorNames(s: seq<Header>, k: nat)
    requires HoleFree(s) && k < |s| && !IsPatch(s[k]) && NonPatch(s[..k]) != []
    ensures var a := NonPatch(s[..k]); s[k].prev == a[|a| - 1].id
  {
    hide NonPatch;
    var a, v := NonPatch(s[..k]), NonPatch(s);
    ChainFront(s[k], s[k + 1..]);
    NonPatchConcat(s[..k], s[k..]);
    assert s == s[..k] + s[k..] && s[k..] == [s[k]] + s[k + 1..];
    assert v[|a|] == s[k] && v[|a| - 1] == a[|a| - 1];
    assert !Broken(v, |a|);
  }

  /** The newest whole message before `k` is `t` exactly when `t`'s header is whole. */
  lemma NewestNames(s: seq<Header>, k: nat, t: int)
    requires Sorted(s) && 0 < k <= |s| && s[k - 1].id == t && NonPatch(s[..k]) != []
    ensures var a := NonPatch(s[..k]); a[|a| - 1].id == t <==> !IsPatch(s[k - 1])
  {
    hide NonPatch;
    if IsPatch(s[k - 1]) {
      var a := NonPatch(s[..k]);
      var h := a[|a| - 1];
      assert h in s[..k] && h != s[k - 1];
    } else {
      ChainSnoc(s, k);
    }
  }

  /** Trimming keeps exactly the newest headers. */
  lemma TrimKeepsNewest(s: seq<Header>)
    requires IndexOk(s)
    ensures var r := AfterTrim(s); var n := |s| - |r|;
      && IndexOk(r) && |r| == (if |s| > MAX_INDEX_SIZE then MAX_INDEX_SIZE else |s|)
      && Ids(r) == Ids(s[n..]) && Ids(s) == Ids(s[..n]) + Ids(r)
      && forall id, was :: id in Ids(r) && was in Ids(s[..n]) ==> was < id
  {
    hide HeaderOk;
    var r := AfterTrim(s);
    var n := |s| - |r|;
    CutFirstLength(s[n..]);
    if |s| > MAX_INDEX_SIZE {
      DroppedIds(s, n, true);
    }
    assert s == s[..n] + s[n..];
    forall i | 0 <= i < |s|
      ensures s[i].id in Ids(s[..n]) + Ids(s[n..])
    {
      assert if i < n then s[..n][i] == s[i] else s[n..][i - n] == s[i];
    }
  }

  lemma HoleFreeAfterTrim(s: seq<Header>)
    requires IndexOk(s) && HoleFree(s) && |s| > MAX_INDEX_SIZE
    ensures var n := |s| - MAX_INDEX_SIZE;
      HoleFree(AfterTrim(s)) <==> NonPatch(s[n..]) != [] && (NonPatch(s[..n]) == [] || !IsPatch(s[n]))
  {
    hide NonPatch, HeaderOk, HoleFree, CutFirst;
    var n := |s| - MAX_INDEX_SIZE;
    if NonPatch(s[n..]) == [] {
      NothingWholeLeft(s, n, true);
    } else {
      HoleFreeAfterDrop(s, n, true);
    }
  }

  // ----- Memory and file -----

  /** A file that reloads to the index still does after an update appended the
      headers it echoed. */
  lemma UpdateStaysSynced(s: seq<Header>, data: seq<Header>, blocks: seq<Block>)
    requires Sound(blocks) && InsertAll([], ReadRecords(blocks)) == s
    requires forall i :: 0 <= i < |data| ==> data[i].mods == []
    ensures InsertAll([], ReadRecords(blocks + [Block(Records(Echoes(s, data)), false)])) == InsertAll(s, data)
  {
    hide InsertAll, ReadRecords, Echoes;
    var rs := Records(Echoes(s, data));
    ReadRecordsSnoc(blocks, Block(rs, false));
    InsertAllConcat([], ReadRecords(blocks), rs);
    EchoesInserted(s, data);
  }

  /** The first `n` headers merged with themselves. */
  function SelfMerged(s: seq<Header>, n: nat): (r: seq<Header>)
    ensures |r| == |s| && forall i :: 0 <= i < |s| ==> r[i] == if i < n then Merge(s[i], s[i]) else s[i]
  {
    seq(|s|, i requires 0 <= i < |s| => if i < n then Merge(s[i], s[i]) else s[i])
  }

  lemma {:induction false} InsertSelf(s: seq<Header>, n: nat)
    requires Sorted(s) && n <= |s|
    ensures InsertAll(s, s[..n]) == SelfMerged(s, n)
  {
    hide Merge, InsertOne, SelfMerged;
    if n == 0 {
      NoneMerged(s);
    } else {
      InsertSelf(s, n - 1);
      assert s[..n][..n - 1] == s[..n - 1];
      InsertNextSelf(s, n);
    }
  }

  lemma NoneMerged(s: seq<Header>)
    ensures SelfMerged(s, 0) == s
  {
  }

  lemma InsertNextSelf(s: seq<Header>, n: nat)
    requires Sorted(s) && 0 < n <= |s|
    ensures InsertOne(SelfMerged(s, n - 1), s[n - 1]) == SelfMerged(s, n)
  {
    hide Merge, SelfMerged, LowerBound;
    var p := SelfMerged(s, n - 1);
    SelfMergedIds(s, n - 1);
    ArchiveIndex.BoundUnique(p, s[n - 1].id, n - 1);
    assert SelfMerged(s, n) == p[n - 1 := Merge(s[n - 1], s[n - 1])];
  }

  lemma SelfMergedIds(s: seq<Header>, n: nat)
    ensures forall i :: 0 <= i < |s| ==> SelfMerged(s, n)[i].id == s[i].id
  {
  }

  /** Loading a file in step with memory over that memory changes nothing exactly
      when no orphan modification is indexed: such a one counts itself again. */
  lemma LoadOverSelf(s: seq<Header>)
    requires Sorted(s)
    ensures InsertAll(s, s) == s <==> forall i :: 0 <= i < |s| ==> !IsModification(s[i])
  {
    hide Merge, IsModification, InsertAll;
    InsertSelf(s, |s|);
    assert s[..|s|] == s;
    var r := SelfMerged(s, |s|);
    forall i | 0 <= i < |s|
      ensures r[i] == s[i] <==> !IsModification(s[i])
    {
      MergeSelf(s[i]);
    }
    assert r == s <==> forall i :: 0 <= i < |s| ==> r[i] == s[i];
  }
}
