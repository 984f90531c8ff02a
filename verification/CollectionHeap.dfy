/** Reference-counted values, collections and arrays as a heap graph
    (corelib/collection.cpp). An address is an index into the heap. */
module CollectionHeap {
  import opened Options

  datatype Entry = Entry(name: string, value: nat)

  /** What an object owns: a value may hold one counted object, a collection holds
      named values, an array holds values in order, a stream or header list none. */
  datatype Body = Value(content: Option<nat>) | Collection(entries: seq<Entry>) | Array(items: seq<nat>) | Leaf

  datatype Obj = Freed | Live(count: nat, body: Body)

  function Values(entries: seq<Entry>): (r: seq<nat>)
    ensures |r| == |entries| && forall i :: 0 <= i < |r| ==> r[i] == entries[i].value
  {
    seq(|entries|, i requires 0 <= i < |entries| => entries[i].value)
  }

  function Slots(b: Body): seq<nat> {
    match b
    case Value(content) => if content.Some? then [content.value] else []
    case Collection(entries) => Values(entries)
    case Array(items) => items
    case Leaf => []
  }

  /** How many references an object holds to an address. */
  function Holds(o: Obj, a: nat): nat {
    if o.Live? then multiset(Slots(o.body))[a] else 0
  }

  /** How many references to an address the live objects hold together. */
  function Refs(objs: seq<Obj>, a: nat): nat {
    if objs == [] then 0 else Refs(objs[..|objs| - 1], a) + Holds(objs[|objs| - 1], a)
  }

  function LiveCount(objs: seq<Obj>): nat {
    if objs == [] then 0 else LiveCount(objs[..|objs| - 1]) + if objs[|objs| - 1].Live? then 1 else 0
  }

  predicate IsLive(objs: seq<Obj>, a: nat) { a < |objs| && objs[a].Live? }

  /** The owners of an address: slots of live objects and `outside` owners. */
  function Owners(objs: seq<Obj>, outside: multiset<nat>, a: nat): nat { Refs(objs, a) + outside[a] }

  /** A live object's count is the number of its owners; a freed one has none. */
  predicate CountedAt(objs: seq<Obj>, outside: multiset<nat>, a: nat) {
    if IsLive(objs, a) then objs[a].count == Owners(objs, outside, a) > 0 else Owners(objs, outside, a) == 0
  }

  ghost predicate Counted(objs: seq<Obj>, outside: multiset<nat>) {
    forall a: nat :: CountedAt(objs, outside, a)
  }

  // ----- Changing one object -----

  lemma {:induction false} RefsUpdate(objs: seq<Obj>, a: nat, o: Obj, x: nat)
    requires a < |objs|
    ensures Refs(objs[a := o], x) + Holds(objs[a], x) == Refs(objs, x) + Holds(o, x)
  {
    hide Holds;
    var n := |objs| - 1;
    if a == n {
      assert objs[a := o][..n] == objs[..n];
    } else {
      RefsUpdate(objs[..n], a, o, x);
      assert objs[a := o][..n] == objs[..n][a := o];
    }
  }

  lemma {:induction false} LiveCountUpdate(objs: seq<Obj>, a: nat, o: Obj)
    requires a < |objs|
    ensures LiveCount(objs[a := o]) + (if objs[a].Live? then 1 else 0) == LiveCount(objs) + if o.Live? then 1 else 0
  {
    var n := |objs| - 1;
    if a == n {
      assert objs[a := o][..n] == objs[..n];
    } else {
      LiveCountUpdate(objs[..n], a, o);
      assert objs[a := o][..n] == objs[..n][a := o];
    }
  }

  lemma {:induction false} OwnerOf(objs: seq<Obj>, a: nat) returns (b: nat)
    requires Refs(objs, a) > 0
    ensures IsLive(objs, b) && a in Slots(objs[b].body)
  {
    var n := |objs| - 1;
    if Holds(objs[n], a) > 0 {
      b := n;
    } else {
      b := OwnerOf(objs[..n], a);
    }
  }

  lemma {:induction false} Owned(objs: seq<Obj>, b: nat, a: nat)
    requires IsLive(objs, b) && a in Slots(objs[b].body)
    ensures Refs(objs, a) >= Holds(objs[b], a) > 0
  {
    if b < |objs| - 1 {
      Owned(objs[..|objs| - 1], b, a);
    }
  }

  // ----- Releasing -----

  /** Releases the addresses of a work list one by one: the one whose count drops
      to zero is freed and its own slots are released first. None when freed memory
      is touched. */
  function ReleaseAll(objs: seq<Obj>, work: seq<nat>): Option<seq<Obj>>
    decreases LiveCount(objs), |work|
  {
    if work == [] then Some(objs)
    else if !IsLive(objs, work[0]) || objs[work[0]].count == 0 then None
    else
      var a := work[0];
      LiveCountUpdate(objs, a, Freed);
      LiveCountUpdate(objs, a, objs[a].(count := objs[a].count - 1));
      if objs[a].count == 1 then ReleaseAll(objs[a := Freed], Slots(objs[a].body) + work[1..])
      else ReleaseAll(objs[a := objs[a].(count := objs[a].count - 1)], work[1..])
  }

  /** The heap after one release. */
  function Released(objs: seq<Obj>, a: nat): seq<Obj>
    requires IsLive(objs, a) && objs[a].count > 0
  {
    objs[a := if objs[a].count == 1 then Freed else objs[a].(count := objs[a].count - 1)]
  }

  function Cascade(objs: seq<Obj>, a: nat): seq<nat>
    requires IsLive(objs, a)
  {
    if objs[a].count == 1 then Slots(objs[a].body) else []
  }

  lemma ReleaseFirst(objs: seq<Obj>, work: seq<nat>)
    requires work != [] && IsLive(objs, work[0]) && objs[work[0]].count > 0
    ensures ReleaseAll(objs, work) == ReleaseAll(Released(objs, work[0]), Cascade(objs, work[0]) + work[1..])
    ensures LiveCount(Released(objs, work[0])) <= LiveCount(objs)
    ensures objs[work[0]].count == 1 ==> LiveCount(Released(objs, work[0])) < LiveCount(objs)
  {
    LiveCountUpdate(objs, work[0], Released(objs, work[0])[work[0]]);
    assert Cascade(objs, work[0]) == [] ==> Cascade(objs, work[0]) + work[1..] == work[1..];
  }

  /** Nothing came to life and what still lives owns what it owned. */
  ghost predicate Shrunk(objs: seq<Obj>, r: seq<Obj>) {
    && |r| == |objs|
    && forall a: nat :: IsLive(r, a) ==> IsLive(objs, a) && r[a].body == objs[a].body
  }

  lemma ReleasedCounted(objs: seq<Obj>, outside: multiset<nat>, work: seq<nat>)
    requires work != [] && Counted(objs, outside + multiset(work))
    ensures var a := work[0];
      && IsLive(objs, a) && objs[a].count > 0
      && Counted(Released(objs, a), outside + multiset(Cascade(objs, a) + work[1..]))
      && Shrunk(objs, Released(objs, a))
  {
    hide Refs, Slots, CountedAt;
    var a := work[0];
    assert work == [a] + work[1..];
    assert CountedAt(objs, outside + multiset(work), a);
    FirstIsLive(objs, outside, work);
    forall b: nat
      ensures CountedAt(Released(objs, a), outside + multiset(Cascade(objs, a) + work[1..]), b)
    {
      assert CountedAt(objs, outside + multiset(work), b);
      ReleasedCountedAt(objs, outside, work, b);
    }
  }

  lemma FirstIsLive(objs: seq<Obj>, outside: multiset<nat>, work: seq<nat>)
    requires work != [] && CountedAt(objs, outside + multiset(work), work[0])
    ensures IsLive(objs, work[0]) && objs[work[0]].count > 0
  {
    assert work[0] in multiset(work);
  }

  lemma ReleasedCountedAt(objs: seq<Obj>, outside: multiset<nat>, work: seq<nat>, b: nat)
    requires work != [] && IsLive(objs, work[0]) && objs[work[0]].count > 0
    requires CountedAt(objs, outside + multiset(work), work[0]) && CountedAt(objs, outside + multiset(work), b)
    ensures CountedAt(Released(objs, work[0]), outside + multiset(Cascade(objs, work[0]) + work[1..]), b)
  {
    hide Refs, Slots;
    var a := work[0];
    assert work == [a] + work[1..];
    RefsUpdate(objs, a, Released(objs, a)[a], b);
  }

  lemma ShrunkTwice(a: seq<Obj>, b: seq<Obj>, c: seq<Obj>)
    requires Shrunk(a, b) && Shrunk(b, c)
    ensures Shrunk(a, c)
  {
  }

  /** In a counted heap releasing never touches freed memory, and every count is right again. */
  lemma {:induction false} ReleaseKeepsCounts(objs: seq<Obj>, outside: multiset<nat>, work: seq<nat>)
    requires Counted(objs, outside + multiset(work))
    ensures var r := ReleaseAll(objs, work);
      r.Some? && Counted(r.value, outside) && Shrunk(objs, r.value) && LiveCount(r.value) <= LiveCount(objs)
    decreases LiveCount(objs), |work|
  {
    hide Counted, Slots, Released, Cascade, Shrunk;
    if work == [] {
      assert outside + multiset(work) == outside;
      ShrunkSame(objs);
    } else {
      ReleasedCounted(objs, outside, work);
      ReleaseFirst(objs, work);
      CascadeEmpty(objs, work[0]);
      var r, rest := Released(objs, work[0]), Cascade(objs, work[0]) + work[1..];
      ReleaseKeepsCounts(r, outside, rest);
      ShrunkTwice(objs, r, ReleaseAll(r, rest).value);
    }
  }

  lemma CascadeEmpty(objs: seq<Obj>, a: nat)
    requires IsLive(objs, a)
    ensures objs[a].count != 1 ==> Cascade(objs, a) == []
  {
  }

  lemma ShrunkSame(objs: seq<Obj>)
    ensures Shrunk(objs, objs)
  {
  }

  /** Releasing one list after the other is releasing them together. */
  lemma {:induction false} ReleaseConcat(objs: seq<Obj>, first: seq<nat>, second: seq<nat>)
    ensures ReleaseAll(objs, first + second) ==
      if ReleaseAll(objs, first).Some? then ReleaseAll(ReleaseAll(objs, first).value, second) else None
    decreases LiveCount(objs), |first|
  {
    if first == [] {
      assert first + second == second;
    } else if IsLive(objs, first[0]) && objs[first[0]].count > 0 {
      hide Slots, LiveCount, Released, Cascade;
      var a := first[0];
      ReleaseFirst(objs, first);
      ReleaseFirst(objs, first + second);
      CascadeEmpty(objs, a);
      ReleaseConcat(Released(objs, a), Cascade(objs, a) + first[1..], second);
      assert Cascade(objs, a) + (first + second)[1..] == (Cascade(objs, a) + first[1..]) + second;
    }
  }

  // ----- Reachability -----

  /** Each object of the path holds a reference to the next. */
  predicate Path(objs: seq<Obj>, p: seq<nat>) {
    forall i :: 0 <= i < |p| - 1 ==> IsLive(objs, p[i]) && p[i + 1] in Slots(objs[p[i]].body)
  }

  /** A path from an outside owner to the object. */
  predicate Leads(objs: seq<Obj>, outside: multiset<nat>, p: seq<nat>, a: nat) {
    p != [] && p[0] in outside && p[|p| - 1] == a && Path(objs, p)
  }

  ghost predicate Reachable(objs: seq<Obj>, outside: multiset<nat>, a: nat) {
    exists p :: Leads(objs, outside, p, a)
  }

  /** A ranking of the objects such that owners rank below what they own. */
  ghost predicate Ranked(objs: seq<Obj>, rank: seq<nat>) {
    && |rank| == |objs|
    && forall a: nat, b: nat :: IsLive(objs, a) && IsLive(objs, b) && b in Slots(objs[a].body) ==> rank[a] < rank[b]
  }

  ghost predicate Acyclic(objs: seq<Obj>) { exists rank :: Ranked(objs, rank) }

  lemma PathLives(objs: seq<Obj>, outside: multiset<nat>, p: seq<nat>, n: nat)
    requires Counted(objs, outside) && Path(objs, p) && n < |p| && p[0] in outside
    ensures IsLive(objs, p[n])
  {
    hide Refs, Slots;
    assert CountedAt(objs, outside, p[n]);
    if n > 0 {
      assert IsLive(objs, p[n - 1]) && p[n - 1 + 1] in Slots(objs[p[n - 1]].body);
      Owned(objs, p[n - 1], p[n]);
    }
  }

  lemma PathExtend(objs: seq<Obj>, p: seq<nat>, a: nat)
    requires p != [] && Path(objs, p) && IsLive(objs, p[|p| - 1]) && a in Slots(objs[p[|p| - 1]].body)
    ensures Path(objs, p + [a])
  {
  }

  lemma {:induction false} LiveReachable(objs: seq<Obj>, outside: multiset<nat>, rank: seq<nat>, a: nat)
    requires Counted(objs, outside) && Ranked(objs, rank) && IsLive(objs, a)
    ensures Reachable(objs, outside, a)
    decreases rank[a]
  {
    hide Refs, Slots, Path;
    assert CountedAt(objs, outside, a);
    if a in outside {
      SinglePath(objs, a);
      assert Leads(objs, outside, [a], a);
    } else {
      var b := OwnerOf(objs, a);
      LiveReachable(objs, outside, rank, b);
      var p :| Leads(objs, outside, p, b);
      PathExtend(objs, p, a);
      assert Leads(objs, outside, p + [a], a);
    }
  }

  lemma SinglePath(objs: seq<Obj>, a: nat)
    ensures Path(objs, [a])
  {
  }

  /** On an acyclic heap the live objects are exactly the reachable ones. */
  lemma LiveIffReachable(objs: seq<Obj>, outside: multiset<nat>, a: nat)
    requires Counted(objs, outside) && Acyclic(objs)
    ensures IsLive(objs, a) <==> Reachable(objs, outside, a)
  {
    hide Counted, Ranked, Path;
    if IsLive(objs, a) {
      var rank :| Ranked(objs, rank);
      LiveReachable(objs, outside, rank, a);
    } else if Reachable(objs, outside, a) {
      var p :| Leads(objs, outside, p, a);
      PathLives(objs, outside, p, |p| - 1);
    }
  }

  lemma {:induction false} PathSurvives(objs: seq<Obj>, r: seq<Obj>, outside: multiset<nat>, p: seq<nat>, n: nat)
    requires Counted(r, outside) && Shrunk(objs, r) && Path(objs, p) && n < |p| && p[0] in outside
    ensures IsLive(r, p[n])
  {
    hide Refs, Slots;
    assert CountedAt(r, outside, p[n]);
    if n == 0 {
    } else {
      PathSurvives(objs, r, outside, p, n - 1);
      assert IsLive(objs, p[n - 1]) && p[n - 1 + 1] in Slots(objs[p[n - 1]].body);
      Owned(r, p[n - 1], p[n]);
    }
  }

  lemma ShrunkAcyclic(objs: seq<Obj>, r: seq<Obj>)
    requires Shrunk(objs, r) && Acyclic(objs)
    ensures Acyclic(r)
  {
    var rank :| Ranked(objs, rank);
    assert Ranked(r, rank);
  }

  /** Dropping owners on an acyclic heap frees exactly the objects that the remaining
      owners cannot reach any more; the others keep what they own. */
  lemma ReleaseFreesUnreachable(objs: seq<Obj>, outside: multiset<nat>, work: seq<nat>, a: nat)
    requires Counted(objs, outside + multiset(work)) && Acyclic(objs)
    ensures var r := ReleaseAll(objs, work);
      && r.Some? && Shrunk(objs, r.value) && CountedAt(r.value, outside, a)
      && (IsLive(r.value, a) <==> Reachable(objs, outside, a))
  {
    hide Ranked, Path, Refs, Acyclic, CountedAt, ReleaseAll, Shrunk;
    ReleaseKeepsCounts(objs, outside, work);
    var r := ReleaseAll(objs, work).value;
    ShrunkAcyclic(objs, r);
    LiveIffReachable(r, outside, a);
    assert CountedAt(r, outside, a);
    if IsLive(r, a) {
      var p :| Leads(r, outside, p, a);
      PathBack(objs, r, p);
      assert Leads(objs, outside, p, a);
    } else if Reachable(objs, outside, a) {
      var p :| Leads(objs, outside, p, a);
      PathSurvives(objs, r, outside, p, |p| - 1);
    }
  }

  lemma PathBack(objs: seq<Obj>, r: seq<Obj>, p: seq<nat>)
    requires Shrunk(objs, r) && Path(r, p)
    ensures Path(objs, p)
  {
  }

  // ----- Cycles -----

  ghost predicate OwnedWithin(objs: seq<Obj>, c: set<nat>, a: nat) {
    exists b :: b in c && IsLive(objs, b) && a in Slots(objs[b].body)
  }

  /** Each object of the set is owned by another one of it: a cycle, or more. */
  ghost predicate SelfOwned(objs: seq<Obj>, c: set<nat>) {
    forall a :: a in c ==> IsLive(objs, a) && OwnedWithin(objs, c, a)
  }

  /** An object with an owner outside and another in the set has two references. */
  lemma HeldTwice(objs: seq<Obj>, outside: multiset<nat>, c: set<nat>, a: nat)
    requires CountedAt(objs, outside, a) && a in outside && OwnedWithin(objs, c, a)
    ensures IsLive(objs, a) && objs[a].count > 1
  {
    hide Refs, Slots;
    var b :| b in c && IsLive(objs, b) && a in Slots(objs[b].body);
    Owned(objs, b, a);
  }

  lemma OwnedStill(objs: seq<Obj>, r: seq<Obj>, c: set<nat>, a: nat)
    requires OwnedWithin(objs, c, a)
    requires forall b :: b in c && IsLive(objs, b) ==> IsLive(r, b) && r[b].body == objs[b].body
    ensures OwnedWithin(r, c, a)
  {
    var b :| b in c && IsLive(objs, b) && a in Slots(objs[b].body);
    assert IsLive(r, b) && r[b].body == objs[b].body;
  }

  lemma ReleasedSelfOwned(objs: seq<Obj>, outside: multiset<nat>, work: seq<nat>, c: set<nat>)
    requires work != [] && Counted(objs, outside + multiset(work)) && SelfOwned(objs, c)
    requires IsLive(objs, work[0]) && objs[work[0]].count > 0
    ensures SelfOwned(Released(objs, work[0]), c)
  {
    hide OwnedWithin, CountedAt;
    var a := work[0];
    assert CountedAt(objs, outside + multiset(work), a) && a in multiset(work);
    if a in c {
      HeldTwice(objs, outside + multiset(work), c, a);
    }
    forall x | x in c
      ensures IsLive(Released(objs, a), x) && OwnedWithin(Released(objs, a), c, x)
    {
      OwnedStill(objs, Released(objs, a), c, x);
    }
  }

  /** A set of objects that own each other is never freed, whatever is released:
      cycles leak. */
  lemma {:induction false} CyclesAreKept(objs: seq<Obj>, outside: multiset<nat>, work: seq<nat>, c: set<nat>)
    requires Counted(objs, outside + multiset(work)) && SelfOwned(objs, c)
    ensures ReleaseAll(objs, work).Some? && SelfOwned(ReleaseAll(objs, work).value, c)
    decreases LiveCount(objs), |work|
  {
    hide Counted, Slots, Released, Cascade, SelfOwned, LiveCount;
    if work == [] {
    } else {
      ReleasedCounted(objs, outside, work);
      ReleasedSelfOwned(objs, outside, work, c);
      ReleaseFirst(objs, work);
      CascadeEmpty(objs, work[0]);
      CyclesAreKept(Released(objs, work[0]), outside, Cascade(objs, work[0]) + work[1..], c);
    }
  }

  // ----- Replacing what an object owns -----

  function AddRef(objs: seq<Obj>, a: nat): seq<Obj>
    requires IsLive(objs, a)
  {
    objs[a := objs[a].(count := objs[a].count + 1)]
  }

  function WithBody(objs: seq<Obj>, a: nat, b: Body): seq<Obj>
    requires IsLive(objs, a)
  {
    objs[a := objs[a].(body := b)]
  }

  function Listed(t: Option<nat>): seq<nat> { if t.Some? then [t.value] else [] }

  /** Object `x` gives up the `dropped` slots, which are released, keeps the others and
      then takes a reference to `gained`. None when `x` or `gained` was freed on the way. */
  function Replace(objs: seq<Obj>, x: nat, kept: Body, dropped: seq<nat>, gained: Option<nat>, all: Body)
    : Option<seq<Obj>>
    requires IsLive(objs, x)
  {
    var r := ReleaseAll(WithBody(objs, x, kept), dropped);
    if r.None? || !IsLive(r.value, x) || (gained.Some? && !IsLive(r.value, gained.value)) then None
    else
      var g := if gained.Some? then AddRef(r.value, gained.value) else r.value;
      Some(WithBody(g, x, all))
  }

  lemma StripCounted(objs: seq<Obj>, outside: multiset<nat>, x: nat, kept: Body, dropped: seq<nat>)
    requires Counted(objs, outside) && IsLive(objs, x)
    requires multiset(Slots(objs[x].body)) == multiset(Slots(kept)) + multiset(dropped)
    ensures Counted(WithBody(objs, x, kept), outside + multiset(dropped))
  {
    hide Refs, Slots;
    forall b: nat
      ensures CountedAt(WithBody(objs, x, kept), outside + multiset(dropped), b)
    {
      assert CountedAt(objs, outside, b);
      RefsUpdate(objs, x, objs[x].(body := kept), b);
    }
  }

  lemma GainCounted(r: seq<Obj>, outside: multiset<nat>, x: nat, gained: Option<nat>, all: Body)
    requires Counted(r, outside) && IsLive(r, x) && (gained.Some? ==> IsLive(r, gained.value))
    requires multiset(Slots(all)) == multiset(Slots(r[x].body)) + multiset(Listed(gained))
    ensures Counted(WithBody(if gained.Some? then AddRef(r, gained.value) else r, x, all), outside)
  {
    hide Refs, Slots;
    var g := if gained.Some? then AddRef(r, gained.value) else r;
    forall b: nat
      ensures CountedAt(WithBody(g, x, all), outside, b)
    {
      assert CountedAt(r, outside, b);
      if gained.Some? {
        RefsUpdate(r, gained.value, g[gained.value], b);
      }
      RefsUpdate(g, x, g[x].(body := all), b);
    }
  }

  /** The slots before, between and after the replacement add up. */
  predicate Balanced(objs: seq<Obj>, x: nat, kept: Body, dropped: seq<nat>, gained: Option<nat>, all: Body) {
    && IsLive(objs, x)
    && multiset(Slots(objs[x].body)) == multiset(Slots(kept)) + multiset(dropped)
    && multiset(Slots(all)) == multiset(Slots(kept)) + multiset(Listed(gained))
  }

  /** A replacement that succeeds leaves every count right, and changes no other body. */
  lemma ReplaceCounted(objs: seq<Obj>, outside: multiset<nat>, x: nat, kept: Body, dropped: seq<nat>,
                       gained: Option<nat>, all: Body)
    requires Counted(objs, outside) && Balanced(objs, x, kept, dropped, gained, all)
    ensures var r := Replace(objs, x, kept, dropped, gained, all);
      r.Some? ==>
        && Counted(r.value, outside) && IsLive(r.value, x) && r.value[x].body == all
        && Shrunk(objs[x := r.value[x]], r.value)
  {
    hide Refs, Slots, Counted;
    StripCounted(objs, outside, x, kept, dropped);
    var s := WithBody(objs, x, kept);
    ReleaseKeepsCounts(s, outside, dropped);
    var r := ReleaseAll(s, dropped).value;
    if Replace(objs, x, kept, dropped, gained, all).Some? {
      GainCounted(r, outside, x, gained, all);
    }
  }

  /** With an owner outside the heap for both, a replacement touches no freed memory. */
  lemma ReplaceOwned(objs: seq<Obj>, outside: multiset<nat>, x: nat, kept: Body, dropped: seq<nat>,
                     gained: Option<nat>, all: Body)
    requires Counted(objs, outside) && Balanced(objs, x, kept, dropped, gained, all)
    requires x in outside && (gained.Some? ==> gained.value in outside)
    ensures Replace(objs, x, kept, dropped, gained, all).Some?
  {
    hide Refs, Slots;
    StripCounted(objs, outside, x, kept, dropped);
    ReleaseKeepsCounts(WithBody(objs, x, kept), outside, dropped);
    var r := ReleaseAll(WithBody(objs, x, kept), dropped).value;
    assert CountedAt(r, outside, x);
    assert gained.Some? ==> CountedAt(r, outside, gained.value);
  }

  /** On an acyclic heap a replacement touches no freed memory exactly when both the
      object and what it takes are still reachable once the dropped slots are empty;
      then exactly the reachable objects survive. */
  lemma ReplaceSafeIffReachable(objs: seq<Obj>, outside: multiset<nat>, x: nat, kept: Body, dropped: seq<nat>,
                                gained: Option<nat>, all: Body, b: nat)
    requires Counted(objs, outside) && Balanced(objs, x, kept, dropped, gained, all) && Acyclic(WithBody(objs, x, kept))
    ensures var s, r := WithBody(objs, x, kept), Replace(objs, x, kept, dropped, gained, all);
      && (r.Some? <==> Reachable(s, outside, x) && (gained.Some? ==> Reachable(s, outside, gained.value)))
      && (r.Some? ==> (IsLive(r.value, b) <==> Reachable(s, outside, b)))
  {
    hide Refs, Slots, Acyclic, Reachable, Counted, CountedAt, Shrunk, ReleaseAll;
    var s := WithBody(objs, x, kept);
    StripCounted(objs, outside, x, kept, dropped);
    ReleaseFreesUnreachable(s, outside, dropped, x);
    ReleaseFreesUnreachable(s, outside, dropped, b);
    if gained.Some? {
      ReleaseFreesUnreachable(s, outside, dropped, gained.value);
    }
  }

  /** Storing again what the emptied slot held touches freed memory exactly when
      that slot was its only owner. */
  lemma StoreAgainUnsafeIffOnlyOwner(objs: seq<Obj>, outside: multiset<nat>, x: nat, kept: Body, t: nat, all: Body)
    requires Counted(objs, outside) && Balanced(objs, x, kept, [t], Some(t), all)
    ensures IsLive(objs, t)
    ensures Replace(objs, x, kept, [t], Some(t), all).None? <==> objs[t].count == 1
  {
    hide Refs, Slots, Counted, Cascade;
    var s := WithBody(objs, x, kept);
    StripCounted(objs, outside, x, kept, [t]);
    ReleasedCounted(s, outside, [t]);
    ReleaseFirst(s, [t]);
    CascadeEmpty(s, t);
    var r, more := Released(s, t), Cascade(s, t) + [t][1..];
    ReleaseKeepsCounts(r, outside, more);
    if s[t].count != 1 {
      assert more == [];
    }
  }
}
