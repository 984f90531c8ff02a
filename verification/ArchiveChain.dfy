/** The chain of whole messages in an index: patches lie between them and do not
    belong to it. Holes, windows and deletions are stated in its terms. */
module ArchiveChain {
  import opened MessageHeaders
  import opened ArchiveStore

  // ----- The chain -----

  /** The headers that are not patches, in order. */
  function NonPatch(s: seq<Header>): (v: seq<Header>)
    ensures |v| <= |s| && forall i :: 0 <= i < |v| ==> v[i] in s && !IsPatch(v[i])
  {
    if s == [] then []
    else NonPatch(s[..|s| - 1]) + if IsPatch(s[|s| - 1]) then [] else [s[|s| - 1]]
  }

  lemma {:induction false} NonPatchConcat(a: seq<Header>, b: seq<Header>)
    ensures NonPatch(a + b) == NonPatch(a) + NonPatch(b)
  {
    if b == [] {
      assert a + b == a;
    } else {
      assert (a + b)[..|a| + |b| - 1] == a + b[..|b| - 1];
      NonPatchConcat(a, b[..|b| - 1]);
    }
  }

  lemma {:induction false} NonPatchHas(s: seq<Header>, h: Header)
    ensures h in NonPatch(s) <==> h in s && !IsPatch(h)
  {
    if s == [] {
    } else {
      NonPatchHas(s[..|s| - 1], h);
      assert s == s[..|s| - 1] + [s[|s| - 1]];
    }
  }

  lemma {:induction false} NonPatchSorted(s: seq<Header>)
    requires Sorted(s)
    ensures Sorted(NonPatch(s))
  {
    if s == [] {
    } else {
      NonPatchSorted(s[..|s| - 1]);
      assert forall h :: h in s[..|s| - 1] ==> h.id < s[|s| - 1].id;
    }
  }

  /** Header `i` of a chain does not name the one before it; the oldest must name none. */
  predicate Broken(v: seq<Header>, i: nat)
    requires i < |v|
  {
    v[i].prev != if i == 0 then -1 else v[i - 1].id
  }

  predicate Intact(v: seq<Header>) { forall i :: 0 <= i < |v| ==> !Broken(v, i) }

  /** The index holds an unbroken history down to its very first message. */
  predicate HoleFree(s: seq<Header>) { NonPatch(s) != [] && Intact(NonPatch(s)) }

  // ----- Hole search -----

  /** `from_`, `to_`, `depth_`; -1 when unset. */
  datatype Hole = Hole(from: int, to: int, depth: int)

  /** Is position `i` among the newest `depth` headers (at least one; all for -1)? */
  predicate InReach(v: seq<Header>, depth: int, i: nat) {
    depth == -1 || i >= |v| - if depth < 1 then 1 else depth
  }

  predicate NewestBreak(v: seq<Header>, depth: int, i: nat) {
    i < |v| && Broken(v, i) && InReach(v, depth, i) && forall j :: i < j < |v| ==> !Broken(v, j)
  }

  function HoleAt(v: seq<Header>, i: nat, hole: Hole): Hole
    requires i < |v|
  {
    if i == 0 then hole.(from := v[0].id) else Hole(v[i].id, v[i - 1].id, |v| - i)
  }

  ghost predicate ReportsNewestBreak(v: seq<Header>, depth: int, hole: Hole, found: bool, out: Hole) {
    && (found <==> exists i :: NewestBreak(v, depth, i))
    && (forall i :: NewestBreak(v, depth, i) ==> out == HoleAt(v, i, hole))
    && (!found ==> out == hole)
  }

  /** Without a depth limit the search fails to find a hole exactly when there is none. */
  lemma NoHoleIffIntact(v: seq<Header>, hole: Hole, found: bool, out: Hole)
    requires ReportsNewestBreak(v, -1, hole, found, out)
    ensures !found <==> Intact(v)
  {
    if !Intact(v) {
      var i := LastBroken(v, |v|);
      assert NewestBreak(v, -1, i);
    }
  }

  lemma {:induction false} LastBroken(v: seq<Header>, n: nat) returns (i: nat)
    requires n <= |v| && exists j :: 0 <= j < n && Broken(v, j)
    ensures i < n && Broken(v, i) && forall j :: i < j < n ==> !Broken(v, j)
  {
    if Broken(v, n - 1) {
      i := n - 1;
    } else {
      i := LastBroken(v, n - 1);
    }
  }

  /** The header does not name the one before it, or names one although it is the oldest. */
  predicate Gap(v: seq<Header>, i: nat)
    requires i < |v|
  {
    if i == 0 then v[0].prev != -1 else v[i].prev != v[i - 1].id
  }

  /** What is told of a gap: its two sides, and how many headers there are from it on. */
  predicate GapTold(v: seq<Header>, i: nat, hole: Hole, out: Hole)
    requires i < |v|
  {
    && out.from == v[i].id
    && if i == 0 then out.to == hole.to && out.depth == hole.depth else out.to == v[i - 1].id && out.depth == |v| - i
  }

  /** A hole is found when some gap lies among the newest headers searched, and the newest gap is told. */
  lemma HoleTold(v: seq<Header>, depth: int, hole: Hole, found: bool, out: Hole)
    requires ReportsNewestBreak(v, depth, hole, found, out)
    ensures found <==>
      exists i: nat :: i < |v| && Gap(v, i) && (depth == -1 || |v| - i <= depth || i == |v| - 1)
    ensures found ==>
      exists i: nat :: i < |v| && Gap(v, i) && (forall j :: i < j < |v| ==> !Gap(v, j)) && GapTold(v, i, hole, out)
  {
    assert forall i :: 0 <= i < |v| ==> (Gap(v, i) <==> Broken(v, i));
    if i: nat :| i < |v| && Gap(v, i) && (depth == -1 || |v| - i <= depth || i == |v| - 1) {
      var n := LastBroken(v, |v|);
      assert NewestBreak(v, depth, n);
    }
    if found {
      var i: nat :| NewestBreak(v, depth, i);
      assert Gap(v, i) && forall j :: i < j < |v| ==> !Gap(v, j);
      assert GapTold(v, i, hole, out);
    }
  }

  /** The position after the newest whole message below `k`, or 0. */
  function SkipBack(s: seq<Header>, k: nat): (r: nat)
    requires k <= |s|
    ensures r <= k && (r > 0 ==> !IsPatch(s[r - 1]))
  {
    if k == 0 || !IsPatch(s[k - 1]) then k else SkipBack(s, k - 1)
  }

  lemma {:induction false} SkipBackKeepsChain(s: seq<Header>, k: nat)
    requires k <= |s|
    ensures NonPatch(s[..SkipBack(s, k)]) == NonPatch(s[..k])
  {
    if k > 0 && IsPatch(s[k - 1]) {
      SkipBackKeepsChain(s, k - 1);
      assert s[..k][..k - 1] == s[..k - 1];
    }
  }

  lemma ChainSnoc(s: seq<Header>, k: nat)
    requires 0 < k <= |s| && !IsPatch(s[k - 1])
    ensures NonPatch(s[..k]) == NonPatch(s[..k - 1]) + [s[k - 1]]
  {
    assert s[..k][..k - 1] == s[..k - 1];
  }

  // ----- Windows -----

  function NotDeleted(v: seq<Header>): nat {
    if v == [] then 0 else NotDeleted(v[1..]) + if IsDeleted(v[0]) then 0 else 1
  }

  /** The early part of a window: walking back from the end, whole messages until
      `n` of them were not deleted. */
  function EarlyRun(s: seq<Header>, n: nat): seq<Header> {
    if s == [] then []
    else
      var u, h := s[..|s| - 1], s[|s| - 1];
      if IsPatch(h) then EarlyRun(u, n)
      else if n == 0 then []
      else EarlyRun(u, if IsDeleted(h) then n else n - 1) + [h]
  }

  /** The later part: whole messages that were not deleted. */
  function Live(s: seq<Header>): (v: seq<Header>)
    ensures |v| <= |s| && forall i :: 0 <= i < |v| ==> v[i] in s && !IsPatch(v[i]) && !IsDeleted(v[i])
  {
    if s == [] then []
    else Live(s[..|s| - 1]) + if IsPatch(s[|s| - 1]) || IsDeleted(s[|s| - 1]) then [] else [s[|s| - 1]]
  }

  function Oldest(v: seq<Header>, n: nat): seq<Header> { if n < |v| then v[..n] else v }

  function Newest(v: seq<Header>, n: nat): seq<Header> { if n < |v| then v[|v| - n..] else v }

  lemma {:induction false} NotDeletedSnoc(v: seq<Header>, h: Header)
    ensures NotDeleted(v + [h]) == NotDeleted(v) + if IsDeleted(h) then 0 else 1
  {
    if v == [] {
      assert (v + [h])[1..] == [];
    } else {
      assert (v + [h])[1..] == v[1..] + [h];
      NotDeletedSnoc(v[1..], h);
    }
  }

  /** From position `m` on, the chain is the shortest run with `n` messages not
      deleted, or the whole chain. */
  predicate ShortestRun(v: seq<Header>, n: nat, m: nat) {
    && m <= |v| && NotDeleted(v[m..]) <= n
    && (NotDeleted(v[m..]) < n ==> m == 0)
    && (forall i :: m < i <= |v| ==> NotDeleted(v[i..]) < n)
  }

  lemma ShortestRunSnoc(w: seq<Header>, h: Header, n: nat, m: nat)
    requires n > 0 && ShortestRun(w, if IsDeleted(h) then n else n - 1, m)
    ensures ShortestRun(w + [h], n, m) && (w + [h])[m..] == w[m..] + [h]
  {
    var v := w + [h];
    NotDeletedSnoc(w[m..], h);
    assert v[m..] == w[m..] + [h];
    forall i | m < i <= |v|
      ensures NotDeleted(v[i..]) < n
    {
      if i < |v| {
        NotDeletedSnoc(w[i..], h);
        assert v[i..] == w[i..] + [h];
      }
    }
  }

  /** The early part is the shortest run of whole messages before the start that
      holds `n` messages not deleted, or all of them if there are fewer. */
  lemma {:induction false} EarlyRunIsShortest(s: seq<Header>, n: nat) returns (m: nat)
    ensures ShortestRun(NonPatch(s), n, m) && EarlyRun(s, n) == NonPatch(s)[m..]
  {
    hide NotDeleted;
    if s == [] {
      m := 0;
      assert NotDeleted([]) == 0 by { NothingDeleted(); }
    } else {
      var u, h := s[..|s| - 1], s[|s| - 1];
      var v, w := NonPatch(s), NonPatch(u);
      if IsPatch(h) {
        assert v == w;
        m := EarlyRunIsShortest(u, n);
      } else if n == 0 {
        m := |v|;
        NothingDeleted();
        assert v[m..] == [];
      } else {
        m := EarlyRunIsShortest(u, if IsDeleted(h) then n else n - 1);
        ShortestRunSnoc(w, h, n, m);
      }
    }
  }

  lemma NothingDeleted()
    ensures NotDeleted([]) == 0
  {
  }

  lemma NewestSnoc(w: seq<Header>, h: Header, n: nat)
    ensures Newest(w + [h], n) == if n == 0 then [] else Newest(w, n - 1) + [h]
  {
  }

  /** Without deleted messages the early part is the newest `n` whole messages. */
  lemma {:induction false} EarlyRunUndeleted(s: seq<Header>, n: nat)
    requires forall i :: 0 <= i < |s| ==> !IsDeleted(s[i])
    ensures EarlyRun(s, n) == Newest(NonPatch(s), n)
  {
    hide Newest;
    if s != [] {
      var u, h := s[..|s| - 1], s[|s| - 1];
      NewestSnoc(NonPatch(u), h, n);
      if IsPatch(h) {
        EarlyRunUndeleted(u, n);
        assert NonPatch(s) == NonPatch(u);
      } else if n > 0 {
        EarlyRunUndeleted(u, n - 1);
      }
    } else {
      NewestOfNothing(n);
    }
  }

  lemma NewestOfNothing(n: nat)
    ensures Newest([], n) == []
  {
  }

  lemma {:induction false} LiveUndeleted(s: seq<Header>)
    requires forall i :: 0 <= i < |s| ==> !IsDeleted(s[i])
    ensures Live(s) == NonPatch(s)
  {
    if s == [] {
    } else {
      LiveUndeleted(s[..|s| - 1]);
    }
  }

  // ----- Dropping the oldest headers -----

  /** The first header no longer names an older one. */
  function CutFirst(v: seq<Header>): seq<Header> {
    if v == [] then v else v[0 := v[0].(prev := -1)]
  }

  /** The headers from `k` on, perhaps cut off from what was dropped. */
  function Dropped(s: seq<Header>, k: nat, cut: bool): seq<Header>
    requires k <= |s|
  {
    if cut then CutFirst(s[k..]) else s[k..]
  }

  lemma DroppedIds(s: seq<Header>, k: nat, cut: bool)
    requires IndexOk(s) && k <= |s|
    ensures IndexOk(Dropped(s, k, cut)) && Ids(Dropped(s, k, cut)) == Ids(s[k..])
  {
    hide HeaderOk;
    var r, d := s[k..], Dropped(s, k, cut);
    assert |d| == |r| && forall i :: 0 <= i < |r| ==> d[i].id == r[i].id;
    if r != [] {
      CutOk(r[0]);
    }
  }

  lemma CutOk(h: Header)
    requires HeaderOk(h)
    ensures HeaderOk(h.(prev := -1))
  {
  }

  lemma ChainFront(h: Header, r: seq<Header>)
    ensures NonPatch([h] + r) == (if IsPatch(h) then [] else [h]) + NonPatch(r)
  {
    NonPatchConcat([h], r);
    assert [h][..0] == [];
  }

  /** The survivors' chain: unchanged, unless its own first header was cut off. */
  lemma CutChain(r: seq<Header>)
    ensures NonPatch(CutFirst(r)) == if r != [] && !IsPatch(r[0]) then CutFirst(NonPatch(r)) else NonPatch(r)
  {
    hide NonPatch, CutFirst, IsPatch;
    if r != [] {
      var h, t := r[0], r[1..];
      CutFront(h, t);
      ChainFront(h, t);
      ChainFront(h.(prev := -1), t);
      CutFront(h, NonPatch(t));
      assert r == [h] + t;
      assert [] + NonPatch(t) == NonPatch(t);
    } else {
      assert CutFirst(r) == r by { CutNothing(); }
    }
  }

  lemma CutFront(h: Header, t: seq<Header>)
    ensures CutFirst([h] + t) == [h.(prev := -1)] + t && (IsPatch(h.(prev := -1)) <==> IsPatch(h))
  {
  }

  lemma CutNothing()
    ensures CutFirst([]) == []
  {
  }

  /** An intact chain splits into an intact past and a tail linked to it. */
  lemma IntactConcat(a: seq<Header>, v: seq<Header>)
    requires v != [] && Intact(a + v)
    ensures v[0].prev == if a == [] then -1 else a[|a| - 1].id
    ensures forall i :: 0 < i < |v| ==> !Broken(v, i)
  {
    var all := a + v;
    assert !Broken(all, |a|);
    forall i | 0 < i < |v|
      ensures !Broken(v, i)
    {
      assert !Broken(all, |a| + i);
    }
  }

  lemma IntactFromFirst(v: seq<Header>, cut: bool)
    requires v != [] && forall i :: 0 < i < |v| ==> !Broken(v, i)
    ensures var w := if cut then CutFirst(v) else v; Intact(w) <==> cut || v[0].prev == -1
  {
    var w := if cut then CutFirst(v) else v;
    assert forall i :: 0 <= i < |v| ==> w[i].id == v[i].id;
    assert forall i :: 0 < i < |v| ==> (Broken(w, i) <==> Broken(v, i));
    assert Broken(w, 0) <==> w[0].prev != -1;
  }

  /** A hole-free index that loses its oldest `k` headers stays hole-free exactly
      when no whole message was lost, or the first survivor is a whole message
      and was cut off. */
  lemma HoleFreeAfterDrop(s: seq<Header>, k: nat, cut: bool)
    requires IndexOk(s) && HoleFree(s) && k <= |s| && NonPatch(s[k..]) != []
    ensures HoleFree(Dropped(s, k, cut)) <==> NonPatch(s[..k]) == [] || (cut && !IsPatch(s[k]))
  {
    hide NonPatch, Intact, CutFirst, HeaderOk;
    var a, v := NonPatch(s[..k]), NonPatch(s[k..]);
    assert s == s[..k] + s[k..];
    NonPatchConcat(s[..k], s[k..]);
    IntactConcat(a, v);
    CutChain(s[k..]);
    assert s[k..] != [] by { EmptyChain(s[k..]); }
    IntactFromFirst(v, cut && !IsPatch(s[k]));
    CutFirstLength(v);
    if a != [] {
      NonPatchHas(s[..k], a[|a| - 1]);
      PositiveIds(s, a[|a| - 1]);
    }
  }

  lemma EmptyChain(r: seq<Header>)
    ensures r == [] ==> NonPatch(r) == []
  {
  }

  lemma CutFirstLength(v: seq<Header>)
    ensures |CutFirst(v)| == |v|
  {
  }

  lemma PositiveIds(s: seq<Header>, h: Header)
    requires IndexOk(s) && h in s
    ensures h.id > 0
  {
  }
}
