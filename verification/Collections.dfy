/** The operations of values, collections, arrays and owning pointers on the heap
    (corelib/collection.cpp, corelib/ifptr.h, corelib/collection_helper.h). */
module Collections {
  import opened Options
  import opened Searching
  import opened CollectionHeap

  // ----- Named entries -----

  function WithName(name: string): Entry -> bool { (e: Entry) => e.name == name }

  predicate Distinct(es: seq<Entry>) {
    forall i, j :: 0 <= i < j < |es| ==> es[i].name != es[j].name
  }

  function Lookup(es: seq<Entry>, name: string): Option<nat> {
    var k := Find(es, WithName(name));
    if k < |es| then Some(es[k].value) else None
  }

  function Without(es: seq<Entry>, name: string): seq<Entry> {
    var k := Find(es, WithName(name));
    if k < |es| then es[..k] + es[k + 1..] else es
  }

  function With(es: seq<Entry>, name: string, v: nat): seq<Entry> { Without(es, name) + [Entry(name, v)] }

  lemma WithoutAt(es: seq<Entry>, name: string)
    requires Distinct(es)
    ensures var k, w := Find(es, WithName(name)), Without(es, name);
      && |w| == (if k < |es| then |es| - 1 else |es|)
      && (forall i :: 0 <= i < |w| ==> w[i] == es[if i < k then i else i + 1])
      && (forall i :: 0 <= i < |w| ==> w[i].name != name)
  {
    hide Find, Without;
    WithoutMoves(es, name);
    var k := Find(es, WithName(name));
    forall i | 0 <= i < |es| && i != k
      ensures es[i].name != name
    {
      assert k < i ==> es[k].name != es[i].name;
    }
  }

  lemma WithoutMoves(es: seq<Entry>, name: string)
    ensures var k, w := Find(es, WithName(name)), Without(es, name);
      && |w| == (if k < |es| then |es| - 1 else |es|)
      && (forall i :: 0 <= i < |w| ==> w[i] == es[if i < k then i else i + 1])
  {
    hide Find;
  }

  lemma DistinctAfterSet(es: seq<Entry>, name: string, v: nat)
    requires Distinct(es)
    ensures Distinct(With(es, name, v))
  {
    hide Find, Without;
    WithoutAt(es, name);
    var k, w := Find(es, WithName(name)), Without(es, name);
    forall i, j | 0 <= i < j < |w|
      ensures w[i].name != w[j].name
    {
      assert es[if i < k then i else i + 1].name != es[if j < k then j else j + 1].name;
    }
  }

  /** Storing under a name changes the lookup of that name alone. */
  lemma LookupAfterSet(es: seq<Entry>, name: string, v: nat, other: string)
    requires Distinct(es)
    ensures Distinct(With(es, name, v))
    ensures Lookup(With(es, name, v), other) == if other == name then Some(v) else Lookup(es, other)
  {
    hide Find, Without, Distinct;
    DistinctAfterSet(es, name, v);
    WithoutAt(es, name);
    var n, k, m := With(es, name, v), Find(es, WithName(name)), Find(es, WithName(other));
    var at := if other == name || m == |es| then |n| - 1 else if m < k then m else m - 1;
    assert forall i :: 0 <= i < |n| - 1 ==> n[i] == es[if i < k then i else i + 1];
    FindIs(n, WithName(other), if other != name && m == |es| then |n| else at);
  }

  // ----- The operations as replacements -----

  /** `set_as_collection`, `set_as_array` and the like; None of them for a scalar. */
  function SetContent(objs: seq<Obj>, v: nat, t: Option<nat>): Option<seq<Obj>>
    requires IsLive(objs, v) && objs[v].body.Value?
  {
    Replace(objs, v, Value(None), Listed(objs[v].body.content), t, Value(t))
  }

  function SetEntry(objs: seq<Obj>, c: nat, name: string, v: nat): Option<seq<Obj>>
    requires IsLive(objs, c) && objs[c].body.Collection?
  {
    var es := objs[c].body.entries;
    Replace(objs, c, Collection(Without(es, name)), Listed(Lookup(es, name)), Some(v), Collection(With(es, name, v)))
  }

  function PushBack(objs: seq<Obj>, a: nat, v: nat): Option<seq<Obj>>
    requires IsLive(objs, a) && objs[a].body.Array?
  {
    var items := objs[a].body.items;
    Replace(objs, a, Array(items), [], Some(v), Array(items + [v]))
  }

  /** The array grew by `v` at its end; every other object is as live and has the content it had. */
  predicate Pushed(objs: seq<Obj>, a: nat, v: nat, r: seq<Obj>) {
    && IsLive(objs, a) && objs[a].body.Array? && IsLive(r, a) && r[a].body.Array? && |r| == |objs|
    && var was, items := objs[a].body.items, r[a].body.items;
    && |items| == |was| + 1 && items[|was|] == v && (forall i :: 0 <= i < |was| ==> items[i] == was[i])
    && forall b: nat :: b < |objs| && b != a ==>
         (IsLive(r, b) <==> IsLive(objs, b)) && (IsLive(r, b) ==> r[b].body == objs[b].body)
  }

  lemma PushedLast(objs: seq<Obj>, a: nat, v: nat)
    requires IsLive(objs, a) && objs[a].body.Array? && IsLive(objs, v)
    ensures PushBack(objs, a, v).Some? && Pushed(objs, a, v, PushBack(objs, a, v).value)
  {
    var s := WithBody(objs, a, Array(objs[a].body.items));
    assert s == objs && ReleaseAll(s, []) == Some(s);
  }

  /** The values pushed onto an array one after the other. */
  function PushAll(objs: seq<Obj>, a: nat, vs: seq<nat>): Option<seq<Obj>> {
    if vs == [] then Some(objs)
    else
      var r := PushAll(objs, a, vs[..|vs| - 1]);
      if r.Some? && IsLive(r.value, a) && r.value[a].body.Array? then PushBack(r.value, a, vs[|vs| - 1]) else None
  }

  /** Values of live objects pushed onto an array stand there in the order of the pushes,
      behind what it held. */
  lemma {:induction false} PushesInOrder(objs: seq<Obj>, a: nat, vs: seq<nat>)
    requires IsLive(objs, a) && objs[a].body.Array? && forall i :: 0 <= i < |vs| ==> IsLive(objs, vs[i])
    ensures var r := PushAll(objs, a, vs);
      && r.Some? && IsLive(r.value, a) && r.value[a].body.Array?
      && (forall b: nat :: IsLive(objs, b) ==> IsLive(r.value, b))
      && var was, items := objs[a].body.items, r.value[a].body.items;
      && |items| == |was| + |vs|
      && (forall i :: 0 <= i < |was| ==> items[i] == was[i])
      && (forall i :: 0 <= i < |vs| ==> items[|was| + i] == vs[i])
  {
    hide PushBack;
    if vs == [] {
    } else {
      var n := |vs| - 1;
      PushesInOrder(objs, a, vs[..n]);
      PushedLast(PushAll(objs, a, vs[..n]).value, a, vs[n]);
      var r := PushAll(objs, a, vs).value;
      forall b: nat | IsLive(objs, b)
        ensures IsLive(r, b)
      {
        assert IsLive(PushAll(objs, a, vs[..n]).value, b);
      }
    }
  }

  lemma SetContentBalanced(objs: seq<Obj>, v: nat, t: Option<nat>)
    requires IsLive(objs, v) && objs[v].body.Value?
    ensures Balanced(objs, v, Value(None), Listed(objs[v].body.content), t, Value(t))
  {
  }

  lemma PushBackBalanced(objs: seq<Obj>, a: nat, v: nat)
    requires IsLive(objs, a) && objs[a].body.Array?
    ensures var items := objs[a].body.items; Balanced(objs, a, Array(items), [], Some(v), Array(items + [v]))
  {
  }

  lemma SetEntryBalanced(objs: seq<Obj>, c: nat, name: string, v: nat)
    requires IsLive(objs, c) && objs[c].body.Collection?
    ensures var es := objs[c].body.entries;
      Balanced(objs, c, Collection(Without(es, name)), Listed(Lookup(es, name)), Some(v), Collection(With(es, name, v)))
  {
    hide Find, Values, Without;
    var es := objs[c].body.entries;
    ValuesConcat(Without(es, name), [Entry(name, v)]);
    ValuesOne(Entry(name, v));
    WithoutValues(es, name);
  }

  lemma ValuesConcat(a: seq<Entry>, b: seq<Entry>)
    ensures Values(a + b) == Values(a) + Values(b)
  {
  }

  lemma ValuesOne(e: Entry)
    ensures Values([e]) == [e.value]
  {
  }

  lemma ValuesSplit(es: seq<Entry>, k: nat)
    requires k < |es|
    ensures Values(es) == Values(es[..k]) + [es[k].value] + Values(es[k + 1..])
  {
    hide Values;
    ValuesConcat(es[..k] + [es[k]], es[k + 1..]);
    ValuesConcat(es[..k], [es[k]]);
    ValuesOne(es[k]);
    assert es == es[..k] + [es[k]] + es[k + 1..];
  }

  lemma WithoutValues(es: seq<Entry>, name: string)
    ensures multiset(Values(es)) == multiset(Values(Without(es, name))) + multiset(Listed(Lookup(es, name)))
  {
    hide Find, Values;
    var k := Find(es, WithName(name));
    if k < |es| {
      ValuesSplit(es, k);
      ValuesConcat(es[..k], es[k + 1..]);
    }
  }

  lemma RefsAppend(objs: seq<Obj>, o: Obj, a: nat)
    ensures Refs(objs + [o], a) == Refs(objs, a) + Holds(o, a)
  {
    assert (objs + [o])[..|objs|] == objs;
  }

  lemma {:induction false} ShrunkRefs(objs: seq<Obj>, r: seq<Obj>, a: nat)
    requires Shrunk(objs, r)
    ensures Refs(r, a) <= Refs(objs, a)
  {
    hide Slots;
    if objs == [] {
    } else {
      var n := |objs| - 1;
      assert forall b: nat :: IsLive(r[..n], b) ==> IsLive(r, b);
      ShrunkRefs(objs[..n], r[..n], a);
      assert IsLive(r, n) ==> IsLive(objs, n);
    }
  }

  // ----- Owning pointers -----

  datatype Pointer = Pointer(target: Option<nat>, owned: bool)

  const NULL_REFERENCE := Pointer(None, false)

  function Owning(p: Pointer): seq<nat> { if p.owned then Listed(p.target) else [] }

  function Held(ps: seq<Pointer>): multiset<nat> {
    if ps == [] then multiset{} else Held(ps[..|ps| - 1]) + multiset(Owning(ps[|ps| - 1]))
  }

  lemma {:induction false} HeldUpdateAt(ps: seq<Pointer>, i: nat, p: Pointer, a: nat)
    requires i < |ps|
    ensures Held(ps[i := p])[a] + multiset(Owning(ps[i]))[a] == Held(ps)[a] + multiset(Owning(p))[a]
  {
    hide Owning;
    var n := |ps| - 1;
    var q := ps[i := p];
    if i == n {
      assert q[..n] == ps[..n];
    } else {
      HeldUpdateAt(ps[..n], i, p, a);
      assert q[..n] == ps[..n][i := p] && q[n] == ps[n];
    }
  }

  lemma HeldUpdate(ps: seq<Pointer>, i: nat, p: Pointer)
    requires i < |ps|
    ensures Held(ps[i := p]) + multiset(Owning(ps[i])) == Held(ps) + multiset(Owning(p))
  {
    hide Owning, Held;
    forall a: nat
      ensures (Held(ps[i := p]) + multiset(Owning(ps[i])))[a] == (Held(ps) + multiset(Owning(p)))[a]
    {
      HeldUpdateAt(ps, i, p, a);
    }
  }

  /** A pointer that lets go hands its reference to someone else. */
  lemma HeldReset(ps: seq<Pointer>, i: nat, raw: multiset<nat>)
    requires i < |ps|
    ensures Held(ps) == Held(ps[i := NULL_REFERENCE]) + multiset(Owning(ps[i]))
    ensures Held(ps) + raw == Held(ps[i := NULL_REFERENCE]) + raw + multiset(Owning(ps[i]))
    ensures Held(ps) + raw == Held(ps[i := NULL_REFERENCE]) + (raw + multiset(Owning(ps[i])))
  {
    hide Held;
    HeldUpdate(ps, i, NULL_REFERENCE);
    NullOwns();
    assert Held(ps) == Held(ps[i := NULL_REFERENCE]) + multiset(Owning(ps[i]));
  }

  lemma NullOwns()
    ensures Owning(NULL_REFERENCE) == [] && multiset(Owning(NULL_REFERENCE)) == multiset{}
  {
  }

  lemma NullAppended(ps: seq<Pointer>)
    ensures Held(ps + [NULL_REFERENCE]) == Held(ps) && Owning((ps + [NULL_REFERENCE])[|ps|]) == []
  {
    hide Held;
    HeldAppend(ps, NULL_REFERENCE);
    NullOwns();
  }

  lemma HeldSet(ps: seq<Pointer>, i: nat, p: Pointer, raw: multiset<nat>)
    requires i < |ps| && ps[i] == NULL_REFERENCE
    ensures Held(ps[i := p]) == Held(ps) + multiset(Owning(p))
    ensures Held(ps[i := p]) + raw == Held(ps) + raw + multiset(Owning(p))
  {
    hide Held, Owning;
    HeldUpdate(ps, i, p);
    NullOwns();
    assert Held(ps[i := p]) == Held(ps) + multiset(Owning(p));
  }

  lemma HeldMoved(ps: seq<Pointer>, i: nat, j: nat)
    requires i < |ps| && j < |ps| && ps[i] == NULL_REFERENCE
    ensures Held(ps[i := ps[j]][j := NULL_REFERENCE]) == Held(ps)
  {
    hide Held, Owning;
    var q := ps[i := ps[j]];
    HeldSet(ps, i, ps[j], multiset{});
    HeldReset(q, j, multiset{});
    assert q[j] == ps[j];
    Cancel(Held(ps), Held(q[j := NULL_REFERENCE]), multiset(Owning(ps[j])));
  }

  lemma Cancel(a: multiset<nat>, b: multiset<nat>, m: multiset<nat>)
    requires a + m == b + m
    ensures a == b
  {
    forall x: nat
      ensures a[x] == b[x]
    {
      assert (a + m)[x] == (b + m)[x];
    }
  }

  lemma HeldAppend(ps: seq<Pointer>, p: Pointer)
    ensures Held(ps + [p]) == Held(ps) + multiset(Owning(p))
  {
    assert (ps + [p])[..|ps|] == ps;
  }

  lemma {:induction false} HeldHas(ps: seq<Pointer>, i: nat, a: nat)
    requires i < |ps| && a in Owning(ps[i])
    ensures a in Held(ps)
  {
    if i < |ps| - 1 {
      HeldHas(ps[..|ps| - 1], i, a);
    }
  }

  /** Adds a reference to what an owning pointer points to. */
  function Acquire(objs: seq<Obj>, p: Pointer): seq<Obj>
    requires Owning(p) != [] ==> IsLive(objs, Owning(p)[0])
  {
    if Owning(p) == [] then objs else AddRef(objs, Owning(p)[0])
  }

  lemma AcquireCounted(objs: seq<Obj>, outside: multiset<nat>, p: Pointer)
    requires Counted(objs, outside) && (Owning(p) != [] ==> IsLive(objs, Owning(p)[0]))
    ensures Counted(Acquire(objs, p), outside + multiset(Owning(p)))
  {
    hide Refs, Slots;
    if Owning(p) == [] {
      assert outside + multiset(Owning(p)) == outside;
    } else {
      var a := Owning(p)[0];
      assert Owning(p) == [a];
      forall b: nat
        ensures CountedAt(AddRef(objs, a), outside + multiset(Owning(p)), b)
      {
        assert CountedAt(objs, outside, b);
        RefsUpdate(objs, a, AddRef(objs, a)[a], b);
      }
    }
  }

  // ----- The program's memory -----

  class Memory {
    var objs: seq<Obj>
    /** The smart-pointer variables. */
    var pointers: seq<Pointer>
    /** The references that the program holds through plain pointers. */
    ghost var raw: multiset<nat>

    ghost predicate Valid()
      reads this
    {
      Counted(objs, Held(pointers) + raw)
    }

    constructor ()
      ensures Valid() && objs == [] && pointers == [] && raw == multiset{}
    {
      objs, pointers, raw := [], [], multiset{};
    }

    // ----- Counting -----

    /** `release`: the last reference deletes the object, which releases what it owns. */
    method Release(a: nat, ghost rest: multiset<nat>)
      requires Counted(objs, rest + multiset{a})
      modifies `objs
      ensures Counted(objs, rest) && Shrunk(old(objs), objs) && Some(objs) == ReleaseAll(old(objs), [a])
      ensures LiveCount(objs) <= LiveCount(old(objs))
      decreases LiveCount(objs), 0
    {
      hide Counted, Slots, Released, Cascade, Shrunk;
      ghost var before := objs;
      assert multiset([a]) == multiset{a};
      ReleasedCounted(objs, rest, [a]);
      ReleaseFirst(objs, [a]);
      ReleaseKeepsCounts(objs, rest, [a]);
      CascadeEmpty(objs, a);
      assert Cascade(before, a) + [a][1..] == Cascade(before, a);
      if objs[a].count == 1 {
        var slots := Slots(objs[a].body);
        FreedIs(objs, a);
        objs := objs[a := Freed];
        ReleaseSlots(slots, rest);
      } else {
        FreedIs(objs, a);
        assert rest + multiset(Cascade(before, a)) == rest;
        objs := objs[a := objs[a].(count := objs[a].count - 1)];
      }
    }

    static lemma FreedIs(objs: seq<Obj>, a: nat)
      requires IsLive(objs, a) && objs[a].count > 0
      ensures objs[a].count == 1 ==> Released(objs, a) == objs[a := Freed] && Cascade(objs, a) == Slots(objs[a].body)
      ensures objs[a].count != 1 ==> Released(objs, a) == objs[a := objs[a].(count := objs[a].count - 1)]
    {
    }

    /** The loops of the destructors. */
    method ReleaseSlots(slots: seq<nat>, ghost rest: multiset<nat>)
      requires Counted(objs, rest + multiset(slots))
      modifies `objs
      ensures Counted(objs, rest) && Some(objs) == ReleaseAll(old(objs), slots)
      decreases LiveCount(objs), 1
    {
      hide Counted, LiveCount, Shrunk;
      var i := 0;
      assert slots[0..] == slots;
      while i < |slots|
        invariant i <= |slots| && Counted(objs, rest + multiset(slots[i..]))
        invariant ReleaseAll(old(objs), slots) == ReleaseAll(objs, slots[i..])
        invariant LiveCount(objs) <= LiveCount(old(objs))
      {
        assert slots[i..] == [slots[i]] + slots[i + 1..];
        assert rest + multiset(slots[i..]) == rest + multiset(slots[i + 1..]) + multiset{slots[i]};
        ReleaseConcat(objs, [slots[i]], slots[i + 1..]);
        Release(slots[i], rest + multiset(slots[i + 1..]));
        i := i + 1;
      }
      assert rest + multiset(slots[i..]) == rest;
    }

    /** Releases what a pointer that may be null points to. */
    method Drop(t: Option<nat>, ghost rest: multiset<nat>)
      requires Counted(objs, rest + multiset(Listed(t)))
      modifies `objs
      ensures Counted(objs, rest) && Shrunk(old(objs), objs) && Some(objs) == ReleaseAll(old(objs), Listed(t))
    {
      hide Counted, Shrunk;
      if t.Some? {
        assert multiset(Listed(t)) == multiset{t.value};
        Release(t.value, rest);
      } else {
        assert rest + multiset(Listed(t)) == rest;
        ShrunkSame(objs);
      }
    }

    // ----- Creating and holding through plain pointers -----

    /** `create_value`, `create_collection`, `create_array` and the others: a new
        object starts with one reference, which the caller holds. */
    method Create(b: Body) returns (a: nat)
      requires Valid() && Slots(b) == []
      modifies `objs, `raw
      ensures Valid() && a == |old(objs)| && objs == old(objs) + [Live(1, b)] && raw == old(raw) + multiset{a}
    {
      a := |objs|;
      CreatedCounted(objs, Held(pointers) + raw, b);
      objs := objs + [Live(1, b)];
      raw := raw + multiset{a};
      assert Held(pointers) + raw == Held(pointers) + old(raw) + multiset{a};
    }

    static lemma CreatedCounted(objs: seq<Obj>, outside: multiset<nat>, b: Body)
      requires Counted(objs, outside) && Slots(b) == []
      ensures Counted(objs + [Live(1, b)], outside + multiset{|objs|})
    {
      hide Slots;
      var r := objs + [Live(1, b)];
      assert r[..|objs|] == objs;
      forall x: nat
        ensures CountedAt(r, outside + multiset{|objs|}, x)
      {
        assert CountedAt(objs, outside, x);
      }
    }

    method Hold(a: nat)
      requires Valid() && IsLive(objs, a)
      modifies `objs, `raw
      ensures Valid() && objs == AddRef(old(objs), a) && raw == old(raw) + multiset{a}
    {
      var p := Pointer(Some(a), true);
      AcquireCounted(objs, Held(pointers) + raw, p);
      objs := AddRef(objs, a);
      raw := raw + multiset{a};
      assert multiset(Owning(p)) == multiset{a};
      assert Held(pointers) + raw == Held(pointers) + old(raw) + multiset{a};
    }

    method LetGo(a: nat)
      requires Valid() && a in raw
      modifies `objs, `raw
      ensures Valid() && Some(objs) == ReleaseAll(old(objs), [a]) && raw == old(raw) - multiset{a}
    {
      raw := raw - multiset{a};
      assert Held(pointers) + old(raw) == Held(pointers) + raw + multiset{a};
      Release(a, Held(pointers) + raw);
    }

    // ----- Values, collections, arrays -----

    /** Stores a counted object, or a scalar, in a value. */
    method SetAs(v: nat, t: Option<nat>)
      requires Valid() && IsLive(objs, v) && objs[v].body.Value? && SetContent(objs, v, t).Some?
      modifies `objs
      ensures Valid() && Some(objs) == SetContent(old(objs), v, t)
      ensures IsLive(objs, v) && objs[v].body == Value(t) && Shrunk(old(objs)[v := objs[v]], objs)
    {
      hide Counted, Shrunk, ReleaseAll, Slots;
      ghost var outside := Held(pointers) + raw;
      var content := objs[v].body.content;
      SetContentBalanced(objs, v, t);
      ReplaceCounted(objs, outside, v, Value(None), Listed(content), t, Value(t));
      StripCounted(objs, outside, v, Value(None), Listed(content));
      objs := WithBody(objs, v, Value(None));
      Drop(content, outside);
      if t.Some? {
        objs := AddRef(objs, t.value);
      }
      objs := WithBody(objs, v, Value(t));
    }

    /** Stores a value under a name; the value that had the name is released first. */
    method SetValue(c: nat, name: string, v: nat)
      requires Valid() && IsLive(objs, c) && objs[c].body.Collection? && SetEntry(objs, c, name, v).Some?
      modifies `objs
      ensures Valid() && Some(objs) == SetEntry(old(objs), c, name, v)
      ensures IsLive(objs, c) && objs[c].body == Collection(With(old(objs[c].body.entries), name, v))
      ensures Shrunk(old(objs)[c := objs[c]], objs)
    {
      hide Counted, Shrunk, ReleaseAll, Slots, Without, Lookup;
      ghost var outside := Held(pointers) + raw;
      var es := objs[c].body.entries;
      SetEntryBalanced(objs, c, name, v);
      ReplaceCounted(objs, outside, c, Collection(Without(es, name)), Listed(Lookup(es, name)), Some(v),
                     Collection(With(es, name, v)));
      StripCounted(objs, outside, c, Collection(Without(es, name)), Listed(Lookup(es, name)));
      var replaced := Lookup(es, name);
      objs := WithBody(objs, c, Collection(Without(es, name)));
      Drop(replaced, outside);
      objs := AddRef(objs, v);
      objs := WithBody(objs, c, Collection(Without(es, name) + [Entry(name, v)]));
    }

    method Push(a: nat, v: nat)
      requires Valid() && IsLive(objs, a) && objs[a].body.Array? && IsLive(objs, v)
      modifies `objs
      ensures Valid() && Some(objs) == PushBack(old(objs), a, v)
      ensures Pushed(old(objs), a, v, objs)
    {
      hide Counted, Shrunk, Slots, Pushed;
      PushedLast(objs, a, v);
      var items := objs[a].body.items;
      PushBackBalanced(objs, a, v);
      ReplaceCounted(objs, Held(pointers) + raw, a, Array(items), [], Some(v), Array(items + [v]));
      assert WithBody(objs, a, Array(items)) == objs;
      objs := AddRef(objs, v);
      objs := WithBody(objs, a, Array(items + [v]));
    }

    // ----- Owning pointers -----

    /** A new pointer variable takes over a plain reference, or just points. */
    method Wrap(a: nat, owned: bool) returns (i: nat)
      requires Valid() && (owned ==> a in raw)
      modifies `pointers, `raw
      ensures Valid() && i == |old(pointers)| && pointers == old(pointers) + [Pointer(Some(a), owned)]
      ensures raw == if owned then old(raw) - multiset{a} else old(raw)
    {
      i := |pointers|;
      HeldAppend(pointers, Pointer(Some(a), owned));
      pointers := pointers + [Pointer(Some(a), owned)];
      if owned {
        raw := raw - multiset{a};
      }
      assert Held(pointers) + raw == Held(old(pointers)) + old(raw);
    }

    /** Copy assignment; a pointer copied to itself stays as it is. */
    method AssignCopy(i: nat, j: nat)
      requires Valid() && i < |pointers| && j < |pointers|
      modifies `objs, `pointers
      ensures Valid() && pointers == old(pointers)[i := old(pointers)[j]]
      ensures i == j ==> objs == old(objs)
      ensures i != j ==> var r := ReleaseAll(old(objs), Owning(old(pointers)[i]));
        && r.Some? && (Owning(pointers[j]) != [] ==> IsLive(r.value, Owning(pointers[j])[0]))
        && objs == Acquire(r.value, pointers[j])
    {
      hide Counted, Shrunk, ReleaseAll, Held;
      if i != j {
        Reset(i);
        var p := pointers[j];
        SourceLive(p, j);
        AcquireCounted(objs, Held(pointers) + raw, p);
        HeldSet(pointers, i, p, raw);
        pointers := pointers[i := p];
        if p.owned && p.target.Some? {
          objs := AddRef(objs, p.target.value);
        }
      }
    }

    lemma SourceLive(p: Pointer, j: nat)
      requires Valid() && j < |pointers| && p == pointers[j]
      ensures Owning(p) != [] ==> IsLive(objs, Owning(p)[0])
    {
      if Owning(p) != [] {
        HeldHas(pointers, j, Owning(p)[0]);
        assert CountedAt(objs, Held(pointers) + raw, Owning(p)[0]);
      }
    }

    /** Destruction, or the first half of an assignment: the pointer lets go. */
    method Reset(i: nat)
      requires Valid() && i < |pointers|
      modifies `objs, `pointers
      ensures Valid() && pointers == old(pointers)[i := NULL_REFERENCE]
      ensures Some(objs) == ReleaseAll(old(objs), Owning(old(pointers)[i])) && Shrunk(old(objs), objs)
    {
      hide Counted, Shrunk, ReleaseAll, Held;
      var p := pointers[i];
      HeldReset(pointers, i, raw);
      pointers := pointers[i := NULL_REFERENCE];
      Drop(if p.owned then p.target else None, Held(pointers) + raw);
    }

    /** Move assignment, also of a pointer to itself: then it ends up null. */
    method AssignMove(i: nat, j: nat)
      requires Valid() && i < |pointers| && j < |pointers|
      modifies `objs, `pointers
      ensures Valid() && pointers == old(pointers)[i := old(pointers)[j]][j := NULL_REFERENCE]
      ensures Some(objs) == ReleaseAll(old(objs), Owning(old(pointers)[i]))
    {
      hide Counted, Shrunk, ReleaseAll, Held;
      Reset(i);
      HeldMoved(pointers, i, j);
      pointers := pointers[i := pointers[j]];
      pointers := pointers[j := NULL_REFERENCE];
    }

    /** Copy and move construction: a new null pointer, then an assignment. */
    method CopyNew(j: nat) returns (i: nat)
      requires Valid() && j < |pointers|
      modifies `objs, `pointers
      ensures Valid() && i == |old(pointers)| && pointers == old(pointers) + [old(pointers)[j]]
      ensures (Owning(old(pointers)[j]) != [] ==> IsLive(old(objs), Owning(old(pointers)[j])[0]))
      ensures objs == Acquire(old(objs), old(pointers)[j])
    {
      i := |pointers|;
      SourceLive(pointers[j], j);
      HeldAppend(pointers, NULL_REFERENCE);
      pointers := pointers + [NULL_REFERENCE];
      assert Held(pointers) + raw == Held(old(pointers)) + raw;
      AssignCopy(i, j);
    }

    method MoveNew(j: nat) returns (i: nat)
      requires Valid() && j < |pointers|
      modifies `objs, `pointers
      ensures Valid() && i == |old(pointers)| && objs == old(objs)
      ensures pointers == old(pointers)[j := NULL_REFERENCE] + [old(pointers)[j]]
    {
      hide Held, Counted, Owning;
      i := |pointers|;
      NullAppended(pointers);
      pointers := pointers + [NULL_REFERENCE];
      AssignMove(i, j);
    }

    method Detach(i: nat) returns (target: Option<nat>)
      requires Valid() && i < |pointers|
      modifies `pointers, `raw
      ensures Valid() && target == old(pointers)[i].target && pointers == old(pointers)[i := NULL_REFERENCE]
      ensures raw == old(raw) + multiset(Owning(old(pointers)[i]))
    {
      hide Counted, Held;
      target := pointers[i].target;
      HeldReset(pointers, i, raw);
      raw := raw + multiset(Owning(pointers[i]));
      pointers := pointers[i := NULL_REFERENCE];
    }

    // ----- Creating, storing and dropping the own reference -----

    /** A new value in an owning pointer variable, with its content. */
    method NewValue(t: Option<nat>) returns (v: nat)
      requires Valid() && (t.Some? ==> IsLive(objs, t.value))
      modifies `objs, `pointers, `raw
      ensures Valid() && pointers == old(pointers) + [Pointer(Some(v), true)] && raw == old(raw)
      ensures v == |old(objs)| && IsLive(objs, v) && objs[v].body == Value(t)
      ensures Shrunk(old(objs) + [objs[v]], objs)
    {
      hide Counted, ReleaseAll, Held, Slots;
      EmptySlots();
      v := Create(Value(None));
      var _ := Wrap(v, true);
      assert raw == old(raw);
      FreshContent(objs, v, t);
      SetAs(v, t);
      assert old(objs) + [objs[v]] == (old(objs) + [Live(1, Value(None))])[v := objs[v]];
    }

    /** `set_value_as_collection` and its relatives: whoever owned what is stored,
        the new value ends up owned by the collection alone. */
    method SetValueAs(c: nat, name: string, t: Option<nat>)
      requires Valid() && c in Held(pointers) + raw && (t.Some? ==> IsLive(objs, t.value))
      requires IsLive(objs, c) && objs[c].body.Collection?
      modifies `objs, `pointers, `raw
      ensures Valid() && pointers == old(pointers) && raw == old(raw)
      ensures var v := |old(objs)|;
        && IsLive(objs, v) && objs[v] == Live(1, Value(t))
        && IsLive(objs, c) && objs[c].body == Collection(With(old(objs[c].body.entries), name, v))
        && Shrunk(old(objs)[c := objs[c]] + [objs[v]], objs)
    {
      hide Counted, ReleaseAll, Held, With, Slots, Shrunk, SetEntry;
      ghost var before, outside := objs, Held(pointers) + raw;
      var i := |pointers|;
      var v := NewValue(t);
      HeldAppend(old(pointers), Pointer(Some(v), true));
      OwnersLive(objs, Held(pointers) + raw, c, v);
      ghost var s := objs;
      ShrunkAt(before + [s[v]], s, c);
      ReplaceOwnedEntry(objs, Held(pointers) + raw, c, name, v);
      SetValue(c, name, v);
      ghost var u := objs;
      Reset(i);
      HeldDropped(old(pointers), Pointer(Some(v), true));
      pointers := pointers[..i];
      assert pointers == old(pointers);
      OwnersLive(objs, outside, c, c);
      Stages(before, s, u, objs, c, v);
      StoredOnce(before, objs, outside, c, name, t);
    }

    static lemma ShrunkAt(objs: seq<Obj>, r: seq<Obj>, a: nat)
      requires Shrunk(objs, r) && IsLive(r, a)
      ensures IsLive(objs, a) && r[a].body == objs[a].body
    {
    }

    /** What the steps leave of the bodies. */
    static lemma Stages(before: seq<Obj>, s: seq<Obj>, u: seq<Obj>, r: seq<Obj>, c: nat, v: nat)
      requires v == |before| && c < v < |s| && Shrunk(before + [s[v]], s)
      requires IsLive(u, c) && Shrunk(s[c := u[c]], u) && Shrunk(u, r)
      ensures |r| == v + 1
      ensures IsLive(r, c) ==> r[c].body == u[c].body
      ensures IsLive(r, v) ==> IsLive(s, v) && r[v].body == s[v].body
      ensures forall a: nat :: IsLive(r, a) && a != c && a != v ==> IsLive(before, a) && r[a].body == before[a].body
      ensures IsLive(r, c) && IsLive(r, v) ==> Shrunk(before[c := r[c]] + [r[v]], r)
    {
      forall a: nat | IsLive(r, a) && a != c
        ensures IsLive(s, a) && r[a].body == s[a].body
        ensures a != v ==> IsLive(before, a) && r[a].body == before[a].body
      {
        assert IsLive(u, a) && IsLive(s[c := u[c]], a);
        assert IsLive(before + [s[v]], a);
      }
    }

    static lemma EmptySlots()
      ensures Slots(Value(None)) == []
    {
    }

    static lemma FreshContent(objs: seq<Obj>, v: nat, t: Option<nat>)
      requires IsLive(objs, v) && objs[v].body == Value(None) && (t.Some? ==> IsLive(objs, t.value))
      ensures SetContent(objs, v, t).Some?
    {
      hide Slots;
      assert WithBody(objs, v, Value(None)) == objs;
    }

    static lemma OwnersLive(objs: seq<Obj>, outside: multiset<nat>, c: nat, v: nat)
      requires Counted(objs, outside) && c in outside && v in outside
      ensures IsLive(objs, c) && IsLive(objs, v)
    {
      assert CountedAt(objs, outside, c) && CountedAt(objs, outside, v);
    }

    static lemma ReplaceOwnedEntry(objs: seq<Obj>, outside: multiset<nat>, c: nat, name: string, v: nat)
      requires Counted(objs, outside) && IsLive(objs, c) && objs[c].body.Collection? && c in outside && v in outside
      ensures SetEntry(objs, c, name, v).Some?
    {
      var es := objs[c].body.entries;
      SetEntryBalanced(objs, c, name, v);
      ReplaceOwned(objs, outside, c, Collection(Without(es, name)), Listed(Lookup(es, name)), Some(v),
                   Collection(With(es, name, v)));
    }

    static lemma HeldDropped(ps: seq<Pointer>, p: Pointer)
      ensures Held((ps + [p])[|ps| := NULL_REFERENCE]) == Held(ps)
      ensures (ps + [p])[|ps| := NULL_REFERENCE][..|ps|] == ps
    {
      assert (ps + [p])[|ps| := NULL_REFERENCE] == ps + [NULL_REFERENCE];
      HeldAppend(ps, NULL_REFERENCE);
      NullOwns();
    }

    /** The fresh value at the end of the heap has the collection as its only owner. */
    static lemma StoredOnce(s: seq<Obj>, r: seq<Obj>, outside: multiset<nat>, c: nat, name: string, t: Option<nat>)
      requires Counted(s, outside) && Counted(r, outside) && c in outside && c < |s| && |r| == |s| + 1
      requires IsLive(s, c) && s[c].body.Collection?
      requires IsLive(r, c) ==> r[c].body == Collection(With(s[c].body.entries, name, |s|))
      requires IsLive(r, |s|) ==> r[|s|].body == Value(t)
      requires forall a: nat :: IsLive(r, a) && a != c && a != |s| ==> IsLive(s, a) && r[a].body == s[a].body
      requires t.Some? ==> t.value < |s|
      ensures IsLive(r, c) && IsLive(r, |s|) && r[|s|].count == 1
    {
      hide Refs, Slots, Values, With;
      var v := |s|;
      assert CountedAt(r, outside, c) && CountedAt(r, outside, v) && CountedAt(s, outside, v);
      if v in Slots(s[c].body) {
        Owned(s, c, v);
      }
      NewEntryHeld(s[c].body.entries, name, v);
      ContentHeld(t, v);
      Owned(r, c, v);
      RefsUpdate(s, c, r[c], v);
      RefsAppend(s[c := r[c]], r[v], v);
      ShrunkRefs(s[c := r[c]] + [r[v]], r, v);
    }
  }

  lemma NewEntryHeld(es: seq<Entry>, name: string, v: nat)
    ensures v in Slots(Collection(With(es, name, v)))
    ensures v !in Slots(Collection(es)) ==> multiset(Slots(Collection(With(es, name, v))))[v] == 1
  {
    hide Find, Values, Without;
    var rest := Values(Without(es, name));
    ValuesConcat(Without(es, name), [Entry(name, v)]);
    ValuesOne(Entry(name, v));
    WithoutValues(es, name);
    assert (rest + [v])[|rest|] == v;
    assert v !in Values(es) ==> v !in multiset(Values(es));
  }

  lemma ContentHeld(t: Option<nat>, v: nat)
    ensures multiset(Slots(Value(t)))[v] == if t == Some(v) then 1 else 0
  {
  }
}
