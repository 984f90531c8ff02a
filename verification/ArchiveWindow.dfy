/** Windows of an archive index: which headers a windowed read lists and which
    ones an invalidation touches (core/archive/archive_index.cpp). */
module ArchiveWindows {
  import opened MessageHeaders
  import opened ArchiveStore
  import opened ArchiveChain

  const INVALID_OFFSET := 0x7FFF_FFFF_FFFF_FFFF

  function Invalidated(h: Header): Header { h.(offset := INVALID_OFFSET) }

  /** Where a window begins: at the named header or the next one, or at the end. */
  function WindowStart(s: seq<Header>, from: int): (k: nat)
    ensures k <= |s|
  {
    if from == -1 then |s| else LowerBound(s, from)
  }

  /** The early part ends before the start, or behind it when it is to be included. */
  function EarlyEnd(s: seq<Header>, k: nat, later: int, withStart: bool): (e: nat)
    requires k <= |s|
    ensures k <= e <= |s|
  {
    if withStart && later <= 0 && k < |s| then k + 1 else k
  }

  function EarlyPart(s: seq<Header>, k: nat, early: int, later: int, withStart: bool): seq<Header>
    requires k <= |s|
  {
    if early <= 0 then [] else EarlyRun(s[..EarlyEnd(s, k, later, withStart)], early)
  }

  function LaterPart(s: seq<Header>, k: nat, later: int): seq<Header>
    requires k <= |s|
  {
    if later <= 0 then [] else Oldest(Live(s[k..]), later)
  }

  /** The window begins behind all headers older than the named one, or behind all; the early part
      reaches over the start itself only when that is asked for and nothing later is. */
  lemma WindowPlaced(s: seq<Header>, from: int, later: int, withStart: bool)
    requires Sorted(s)
    ensures var k := WindowStart(s, from);
      && (forall i :: 0 <= i < |s| ==> (i < k <==> from == -1 || s[i].id < from))
      && EarlyEnd(s, k, later, withStart) == k + if k < |s| && withStart && later <= 0 then 1 else 0
  {
  }

  /** The later part lists the first `later` messages from the start on that are whole and not deleted. */
  lemma LaterAreFirst(s: seq<Header>, k: nat, later: int, i: nat)
    requires Sorted(s) && k <= i < |s|
    ensures s[i] in LaterPart(s, k, later) <==> !IsPatch(s[i]) && !IsDeleted(s[i]) && |Live(s[k..i])| < later
    ensures |LaterPart(s, k, later)| <= if later > 0 then later else 0
  {
    hide Live;
    var a, b := s[k..i], s[i + 1..];
    assert s[k..] == a + [s[i]] + b;
    LiveConcat(a + [s[i]], b);
    LiveConcat(a, [s[i]]);
    LiveOne(s[i]);
    LiveSorted(s[k..]);
    if later > 0 && !IsPatch(s[i]) && !IsDeleted(s[i]) {
      AmongFirst(Live(a), s[i], Live(b), later);
    }
  }

  lemma AmongFirst(a: seq<Header>, h: Header, b: seq<Header>, n: int)
    requires Sorted(a + [h] + b) && n > 0
    ensures h in Oldest(a + [h] + b, n) <==> |a| < n
  {
    var v := a + [h] + b;
    assert v[|a|] == h;
    if |a| < n {
      assert Oldest(v, n)[|a|] == h;
    }
  }

  lemma LiveOne(h: Header)
    ensures Live([h]) == if IsPatch(h) || IsDeleted(h) then [] else [h]
  {
    assert [h][..0] == [];
  }

  /** Is header `i` among the newest `n` whole messages before position `k`? */
  predicate TouchedBefore(s: seq<Header>, k: nat, n: int, i: nat)
    requires k <= |s|
  {
    i < k && !IsPatch(s[i]) && |NonPatch(s[i + 1..k])| < n
  }

  /** Is header `i` among the first `n` whole messages from position `k` on? */
  predicate TouchedAfter(s: seq<Header>, k: nat, n: int, i: nat)
    requires k <= |s|
  {
    k <= i < |s| && !IsPatch(s[i]) && |NonPatch(s[k..i])| < n
  }

  // ----- What is listed -----

  lemma {:induction false} LiveConcat(a: seq<Header>, b: seq<Header>)
    ensures Live(a + b) == Live(a) + Live(b)
  {
    if b == [] {
      assert a + b == a;
    } else {
      assert (a + b)[..|a| + |b| - 1] == a + b[..|b| - 1];
      LiveConcat(a, b[..|b| - 1]);
    }
  }

  lemma {:induction false} LiveSorted(s: seq<Header>)
    requires Sorted(s)
    ensures Sorted(Live(s))
  {
    if s == [] {
    } else {
      LiveSorted(s[..|s| - 1]);
      assert forall h :: h in s[..|s| - 1] ==> h.id < s[|s| - 1].id;
    }
  }

  lemma FirstLive(s: seq<Header>, k: nat, m: nat, n: nat)
    requires k <= m <= |s|
    requires |Live(s[k..m])| <= n && (m == |s| || |Live(s[k..m])| == n)
    ensures Oldest(Live(s[k..]), n) == Live(s[k..m])
  {
    hide Live;
    LiveConcat(s[k..m], s[m..]);
    assert s[k..] == s[k..m] + s[m..];
    assert m == |s| ==> s[k..m] == s[k..];
  }

  lemma SortedParts(a: seq<Header>, b: seq<Header>)
    requires Sorted(a) && Sorted(b) && forall i, j :: 0 <= i < |a| && 0 <= j < |b| ==> a[i].id < b[j].id
    ensures Sorted(a + b)
  {
  }

  /** A window's headers come in strictly ascending order and none is a patch. */
  lemma WindowAscending(s: seq<Header>, k: nat, early: int, later: int, withStart: bool)
    requires Sorted(s) && k <= |s|
    ensures var w := EarlyPart(s, k, early, later, withStart) + LaterPart(s, k, later);
      Sorted(w) && forall h :: h in w ==> h in s && !IsPatch(h)
  {
    hide EarlyPart, LaterPart, IsPatch;
    var e := EarlyEnd(s, k, later, withStart);
    var a, b := EarlyPart(s, k, early, later, withStart), LaterPart(s, k, later);
    EarlyAscending(s, k, early, later, withStart);
    LaterAscending(s, k, later);
    if b != [] {
      PartsApart(s, k);
      forall i, j | 0 <= i < |a| && 0 <= j < |b|
        ensures a[i].id < b[j].id
      {
        assert a[i] in s[..k] && b[j] in s[k..];
      }
    }
    SortedParts(a, b);
  }

  lemma PartsApart(s: seq<Header>, k: nat)
    requires Sorted(s) && k <= |s|
    ensures forall g, h :: g in s[..k] && h in s[k..] ==> g.id < h.id
  {
  }

  lemma EarlyAscending(s: seq<Header>, k: nat, early: int, later: int, withStart: bool)
    requires Sorted(s) && k <= |s|
    ensures var a := EarlyPart(s, k, early, later, withStart);
      Sorted(a) && forall h :: h in a ==> h in s[..EarlyEnd(s, k, later, withStart)] && !IsPatch(h)
  {
    hide NonPatch, EarlyRun, ShortestRun;
    var u := s[..EarlyEnd(s, k, later, withStart)];
    NonPatchSorted(u);
    if early > 0 {
      var m := EarlyRunIsShortest(u, early);
      ShortestRunBounds(NonPatch(u), early, m);
    }
  }

  lemma LaterAscending(s: seq<Header>, k: nat, later: int)
    requires Sorted(s) && k <= |s|
    ensures var b := LaterPart(s, k, later);
      Sorted(b) && (later <= 0 ==> b == []) && forall h :: h in b ==> h in s[k..] && !IsPatch(h)
  {
    hide Live;
    LiveSorted(s[k..]);
  }

  lemma ShortestRunBounds(v: seq<Header>, n: nat, m: nat)
    requires ShortestRun(v, n, m)
    ensures m <= |v|
  {
  }

  // ----- What is touched -----

  lemma NoChain()
    ensures NonPatch([]) == []
  {
  }

  lemma ChainBack(r: seq<Header>, h: Header)
    ensures NonPatch(r + [h]) == NonPatch(r) + if IsPatch(h) then [] else [h]
  {
    assert (r + [h])[..|r|] == r;
  }

  /** Further down than `n` whole messages nothing is touched. */
  lemma BeyondBefore(s: seq<Header>, k: nat, end: nat, n: nat)
    requires k < end <= |s| && !IsPatch(s[k]) && |NonPatch(s[k + 1..end])| >= n
    ensures forall i :: 0 <= i <= k ==> !TouchedBefore(s, end, n, i)
  {
    hide NonPatch;
    forall i | 0 <= i < k
      ensures !TouchedBefore(s, end, n, i)
    {
      NonPatchConcat(s[i + 1..k + 1], s[k + 1..end]);
      assert s[i + 1..end] == s[i + 1..k + 1] + s[k + 1..end];
    }
  }

  lemma BeyondAfter(s: seq<Header>, start: nat, k: nat, n: nat)
    requires start <= k < |s| && |NonPatch(s[start..k])| >= n
    ensures forall i :: k <= i < |s| ==> !TouchedAfter(s, start, n, i)
  {
    hide NonPatch;
    forall i | k <= i < |s|
      ensures !TouchedAfter(s, start, n, i)
    {
      NonPatchConcat(s[start..k], s[k..i]);
      assert s[start..i] == s[start..k] + s[k..i];
    }
  }

  lemma InvalidatedOk(s: seq<Header>, r: seq<Header>)
    requires IndexOk(s) && |r| == |s| && forall i :: 0 <= i < |s| ==> r[i] == s[i] || r[i] == Invalidated(s[i])
    ensures IndexOk(r)
  {
    assert forall i :: 0 <= i < |s| ==> r[i].id == s[i].id;
    assert forall i :: 0 <= i < |s| ==> HeaderOk(s[i]) ==> HeaderOk(r[i]);
  }

  /** Where a whole message stands in the chain decides whether it is among the
      newest or the first ones. */
  lemma PlaceInChain(s: seq<Header>, i: nat, n: nat)
    requires Sorted(s) && i < |s| && !IsPatch(s[i])
    ensures s[i] in Newest(NonPatch(s), n) <==> |NonPatch(s[i + 1..])| < n
    ensures s[i] in Oldest(NonPatch(s), n) <==> |NonPatch(s[..i])| < n
  {
    hide NonPatch;
    var v, a, b := NonPatch(s), NonPatch(s[..i]), NonPatch(s[i + 1..]);
    ChainSnoc(s, i + 1);
    NonPatchConcat(s[..i + 1], s[i + 1..]);
    assert s == s[..i + 1] + s[i + 1..];
    NonPatchSorted(s);
    assert v == a + [s[i]] + b && v[|a|] == s[i];
    assert forall j :: 0 <= j < |v| && v[j] == s[i] ==> j == |a|;
    var newest, first := Newest(v, n), Oldest(v, n);
    if |b| < n {
      assert newest[|newest| - |b| - 1] == s[i];
    }
    if |a| < n {
      assert first[|a|] == s[i];
    }
  }

  lemma BeforeListed(s: seq<Header>, e: nat, n: nat, i: nat)
    requires Sorted(s) && e <= |s| && i < |s| && n > 0 && forall j :: 0 <= j < |s| ==> !IsDeleted(s[j])
    ensures TouchedBefore(s, e, n, i) <==> s[i] in EarlyRun(s[..e], n)
  {
    hide NonPatch, EarlyRun;
    var u := s[..e];
    EarlyRunUndeleted(u, n);
    if i < e && !IsPatch(s[i]) {
      PlaceInChain(u, i, n);
      assert u[i + 1..] == s[i + 1..e];
    } else {
      assert forall h :: h in Newest(NonPatch(u), n) ==> h in u && !IsPatch(h);
      assert i >= e ==> forall j :: 0 <= j < e ==> u[j].id < s[i].id;
    }
  }

  lemma AfterListed(s: seq<Header>, k: nat, n: nat, i: nat)
    requires Sorted(s) && k <= |s| && i < |s| && n > 0 && forall j :: 0 <= j < |s| ==> !IsDeleted(s[j])
    ensures TouchedAfter(s, k, n, i) <==> s[i] in Oldest(Live(s[k..]), n)
  {
    hide NonPatch, Live;
    var u := s[k..];
    LiveUndeleted(u);
    if i >= k && !IsPatch(s[i]) {
      PlaceInChain(u, i - k, n);
      assert u[i - k] == s[i] && u[..i - k] == s[k..i];
    } else {
      assert forall h :: h in Oldest(NonPatch(u), n) ==> h in u && !IsPatch(h);
      assert i < k ==> forall j :: k <= j < |s| ==> s[i].id < s[j].id;
    }
  }

  /** With nothing deleted, an invalidation touches exactly the headers that a
      windowed read with the same start and counts, including the start, lists. */
  lemma TouchedIffListed(s: seq<Header>, k: nat, before: int, after: int, i: nat)
    requires Sorted(s) && k < |s| && i < |s| && forall j :: 0 <= j < |s| ==> !IsDeleted(s[j])
    ensures TouchedBefore(s, EarlyEnd(s, k, after, true), before, i) || TouchedAfter(s, k, after, i)
            <==> s[i] in EarlyPart(s, k, before, after, true) + LaterPart(s, k, after)
  {
    hide NonPatch, Live, EarlyRun, Oldest;
    if before > 0 {
      BeforeListed(s, EarlyEnd(s, k, after, true), before, i);
    }
    if after > 0 {
      AfterListed(s, k, after, i);
    }
  }
}
