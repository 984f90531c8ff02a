/** The statistics object: two lists of events that are changed in place
    (core/statistics.cpp). */
module StatisticsStore {
  import opened Options
  import opened Tlvs
  import opened StatEvents
  import opened StatIncrements
  import opened StatFile

  // ----- The positions that leave -----

  function Leaving(b: seq<Event>, name: int, now: nat, folder: nat): seq<nat> {
    if b == [] then []
    else
      var n := |b| - 1;
      var l := Leaving(b[..n], name, now, folder);
      if Leaves(b[n], name, now, folder) then l + [n] else l
  }

  /** Exactly the positions that leave are listed, in order. */
  lemma {:induction false} LeavingAscends(b: seq<Event>, name: int, now: nat, folder: nat)
    ensures var r := Leaving(b, name, now, folder);
      && (forall i: nat :: i in r <==> i < |b| && Leaves(b[i], name, now, folder))
      && (forall j, k :: 0 <= j < k < |r| ==> r[j] < r[k])
  {
    hide Leaves;
    if b == [] {
    } else {
      var n := |b| - 1;
      LeavingAscends(b[..n], name, now, folder);
      var l, r := Leaving(b[..n], name, now, folder), Leaving(b, name, now, folder);
      assert forall i: nat :: i in r <==> i in l || (i == n && Leaves(b[n], name, now, folder));
      assert forall j :: 0 <= j < |l| ==> l[j] in l && r[j] == l[j];
    }
  }

  /** Between two neighbouring positions, and outside all, nothing leaves. */
  lemma NoneBetween(b: seq<Event>, j: nat, i: nat, name: int, now: nat, folder: nat)
    requires var r := Leaving(b, name, now, folder);
      j <= |r| && i < |b| && (j > 0 ==> r[j - 1] < i) && (j < |r| ==> i < r[j])
    ensures !Leaves(b[i], name, now, folder)
  {
    hide Leaves, Leaving;
    LeavingAscends(b, name, now, folder);
    var r := Leaving(b, name, now, folder);
    forall k | 0 <= k < |r|
      ensures r[k] != i
    {
      assert k + 1 < j ==> r[k] < r[j - 1];
      assert j < k ==> r[j] < r[k];
    }
  }

  lemma {:induction false} KeptConcat(a: seq<Event>, b: seq<Event>, name: int, now: nat, folder: nat)
    ensures Kept(a + b, name, now, folder) == Kept(a, name, now, folder) + Kept(b, name, now, folder)
  {
    hide Leaves;
    if b == [] {
      assert a + b == a;
    } else {
      assert (a + b)[..|a| + |b| - 1] == a + b[..|b| - 1];
      KeptConcat(a, b[..|b| - 1], name, now, folder);
    }
  }

  lemma {:induction false} KeptAll(b: seq<Event>, name: int, now: nat, folder: nat)
    requires forall i :: 0 <= i < |b| ==> !Leaves(b[i], name, now, folder)
    ensures Kept(b, name, now, folder) == b
  {
    hide Leaves;
    if b == [] {
    } else {
      KeptAll(b[..|b| - 1], name, now, folder);
    }
  }

  /** Erasing position `q`, the last that leaves before `p`. */
  lemma EraseOne(b: seq<Event>, q: nat, p: nat, name: int, now: nat, folder: nat)
    requires q < p <= |b| && Leaves(b[q], name, now, folder)
    requires forall i :: q < i < p ==> !Leaves(b[i], name, now, folder)
    ensures var a := b[..p] + Kept(b[p..], name, now, folder);
      a[..q] + a[q + 1..] == b[..q] + Kept(b[q..], name, now, folder)
  {
    hide Leaves, Kept;
    var k, mid := Kept(b[p..], name, now, folder), b[q + 1..p];
    forall j | 0 <= j < |mid|
      ensures !Leaves(mid[j], name, now, folder)
    {
      assert mid[j] == b[q + 1 + j];
    }
    KeptAll(mid, name, now, folder);
    KeptOne(b[q], name, now, folder);
    KeptConcat(mid, b[p..], name, now, folder);
    KeptConcat([b[q]], mid + b[p..], name, now, folder);
    assert b[q..] == [b[q]] + (mid + b[p..]);
    var a := b[..p] + k;
    assert [] + (mid + k) == mid + k;
    assert a[..q] == b[..q] && a[q + 1..] == mid + k;
  }

  lemma KeptOne(e: Event, name: int, now: nat, folder: nat)
    ensures Kept([e], name, now, folder) == if Leaves(e, name, now, folder) then [] else [e]
  {
    hide Leaves;
    assert [e][..0] == [];
  }

  lemma EraseDone(b: seq<Event>, p: nat, name: int, now: nat, folder: nat)
    requires p <= |b| && forall i :: 0 <= i < p ==> !Leaves(b[i], name, now, folder)
    ensures b[..p] + Kept(b[p..], name, now, folder) == Kept(b, name, now, folder)
  {
    hide Leaves;
    assert b == b[..p] + b[p..];
    KeptConcat(b[..p], b[p..], name, now, folder);
    KeptAll(b[..p], name, now, folder);
  }

  // ----- Keeping events in their lists -----

  /** Incrementing an ordinary property keeps every event in the right list. */
  lemma IncrementPlaced(s: Stats, name: int, k: Text, v: int, now: nat, labels: Labels)
    requires Placed(s) && NotReserved(k) && Accumulates(name)
    ensures Placed(Increment(s, name, k, v, now, labels))
  {
    hide HasProp, NotReserved, IncrementProp, Kept, Left, Decimal;
    var b := BumpAll(s.accumulated, name, k, v);
    forall i | 0 <= i < |b|
      ensures AccumulatingEvent(b[i])
    {
      assert AccumulatingEvent(s.accumulated[i]);
      ReservedApart(k);
      Incremented(s.accumulated[i].props, k, v, ACCUMULATE_FINISHED);
    }
    var l := Left(b, name, now, s.folder, s.session, labels);
    LeftMarked(b, name, now, s.folder, s.session, labels);
    var r := s.(events := s.events + l, accumulated := Kept(b, name, now, s.folder), session := s.session + |l|);
    KeptIn(b, name, now, s.folder);
    forall i | 0 <= i < |r.accumulated|
      ensures AccumulatingEvent(r.accumulated[i])
    {
      assert r.accumulated[i] in b;
    }
    forall i | 0 <= i < |r.events|
      ensures !AccumulatingEvent(r.events[i])
    {
      if i < |s.events| {
        assert r.events[i] == s.events[i] && !AccumulatingEvent(s.events[i]);
      } else {
        assert r.events[i] == l[i - |s.events|] && Marked(l[i - |s.events|]);
      }
    }
    assert Placed(r);
    if Named(s.accumulated, name) == 0 {
      InsertEventPlaced(r, name, [Prop(START_ACCUM_TIME, Decimal(now)), Prop(k, Decimal(v))], now, -1);
    }
  }

  lemma ReservedApart(k: Text)
    requires NotReserved(k)
    ensures k != ACCUMULATE_FINISHED
  {
  }

  /** The position that `clear` keeps: the newest start of a session, or the first event. */
  predicate KeptByClear(es: seq<Event>, k: nat) {
    && k < |es|
    && (es[k].name == SERVICE_SESSION_START || k == 0)
    && forall i :: k < i < |es| ==> es[i].name != SERVICE_SESSION_START
  }

  class Statistics {
    var events: seq<Event>
    var accumulated: seq<Event>
    var session: int
    var folder: nat
    var lastSent: int
    var changed: bool

    ghost function Seen(): Stats
      reads this
    {
      Stats(events, accumulated, session, folder, lastSent)
    }

    ghost predicate Valid()
      reads this
    {
      Placed(Seen())
    }

    constructor ()
      ensures Valid() && events == [] && accumulated == [] && !changed
    {
      events, accumulated, session, folder, lastSent, changed := [], [], 0, 0, 0, false;
    }

    method InsertEventAt(name: int, props: seq<Prop>, time: int, id: int)
      modifies `events, `accumulated, `session, `changed
      ensures Seen() == InsertEvent(old(Seen()), name, props, time, id)
      ensures changed == (old(changed) || !Accumulating(name, props))
      ensures old(Valid()) ==> Valid()
    {
      hide HasProp;
      InsertEventPlacedIf(Seen(), name, props, time, id);
      var number := id;
      if id == -1 {
        number := session;
        session := session + 1;
      }
      var e := Event(name, time, number, props);
      if Accumulates(name) {
        if !HasProp(props, ACCUMULATE_FINISHED) {
          accumulated := accumulated + [e];
          return;
        }
      }
      events := events + [e];
      changed := true;
    }

    static lemma InsertEventPlacedIf(s: Stats, name: int, props: seq<Prop>, time: int, id: int)
      ensures Placed(s) ==> Placed(InsertEvent(s, name, props, time, id))
    {
      hide InsertEvent;
      if Placed(s) {
        InsertEventPlaced(s, name, props, time, id);
      }
    }

    method InsertNow(name: int, props: seq<Prop>, now: nat)
      modifies `events, `accumulated, `session, `changed
      ensures Seen() == Insert(old(Seen()), name, props, now)
      ensures old(Valid()) ==> Valid()
    {
      hide InsertEvent, Placed;
      if name == START_SESSION {
        SessionStarts();
        session := 0;
        InsertEventAt(SERVICE_SESSION_START, props, now, -1);
      }
      InsertEventAt(name, props, now, -1);
    }

    lemma SessionStarts()
      ensures Valid() ==> Placed(Seen().(session := 0))
    {
    }

    /** Increments the property in every accumulating event of the name; what has
        accumulated long enough moves to the other list. */
    method IncrementEventProp(name: int, key: Text, v: int, now: nat, labels: Labels)
      requires Accumulates(name)
      modifies `events, `accumulated, `session, `changed
      ensures Seen() == Increment(old(Seen()), name, key, v, now, labels) && changed
      ensures old(Valid()) && NotReserved(key) ==> Valid()
    {
      hide Leaves, FinalProps, Placed, NotReserved;
      ghost var s, b := Seen(), BumpAll(accumulated, name, key, v);
      if Placed(s) && NotReserved(key) {
        IncrementPlaced(s, name, key, v, now, labels);
      }
      var count, toRemove := BumpEach(name, key, v, now, labels);
      EraseEach(toRemove, b, name, now);
      if count == 0 {
        InsertNow(name, [Prop(START_ACCUM_TIME, Decimal(now)), Prop(key, Decimal(v))], now);
      }
      changed := true;
    }

    method BumpEach(name: int, key: Text, v: int, now: nat, labels: Labels) returns (count: nat, toRemove: seq<nat>)
      requires Accumulates(name)
      modifies `events, `accumulated, `session, `changed
      ensures var b := BumpAll(old(accumulated), name, key, v);
        var l := Left(b, name, now, folder, old(session), labels);
        && accumulated == b && events == old(events) + l && session == old(session) + |l|
        && toRemove == Leaving(b, name, now, folder) && count == Named(old(accumulated), name)
    {
      hide Leaves, FinalProps, Left, Leaving, Named, Bump;
      count, toRemove := 0, [];
      ghost var b, was := BumpAll(accumulated, name, key, v), accumulated;
      NothingYet(name, now, folder, session, labels);
      for i := 0 to |accumulated|
        invariant |accumulated| == |b| && folder == old(folder)
        invariant forall j :: 0 <= j < |b| ==> accumulated[j] == if j < i then b[j] else was[j]
        invariant events == old(events) + Left(b[..i], name, now, folder, old(session), labels)
        invariant session == old(session) + |Left(b[..i], name, now, folder, old(session), labels)|
        invariant toRemove == Leaving(b[..i], name, now, folder) && count == Named(was[..i], name)
      {
        OneMore(b, i, name, now, folder, old(session), labels);
        NamedMore(was, i, name);
        var leaves := BumpOne(i, name, key, v, now, labels);
        if accumulated[i].name == name {
          count := count + 1;
        }
        if leaves {
          toRemove := toRemove + [i];
        }
      }
      assert b[..|b|] == b && was[..|b|] == was;
      assert accumulated == b;
    }

    static lemma NothingYet(name: int, now: nat, folder: nat, session: int, labels: Labels)
      ensures Left([], name, now, folder, session, labels) == []
      ensures Leaving([], name, now, folder) == [] && Named([], name) == 0
    {
    }

    static lemma NamedMore(es: seq<Event>, i: nat, name: int)
      requires i < |es|
      ensures Named(es[..i + 1], name) == Named(es[..i], name) + if es[i].name == name then 1 else 0
    {
      assert es[..i + 1][..i] == es[..i];
    }

    static lemma OneMore(b: seq<Event>, i: nat, name: int, now: nat, folder: nat, session: int, labels: Labels)
      requires i < |b|
      ensures var l := Left(b[..i], name, now, folder, session, labels);
        Left(b[..i + 1], name, now, folder, session, labels) ==
          if Leaves(b[i], name, now, folder) then
            l + [Event(name, now, session + |l|, FinalProps(b[i], folder, labels))]
          else l
      ensures Leaving(b[..i + 1], name, now, folder) ==
        Leaving(b[..i], name, now, folder) + if Leaves(b[i], name, now, folder) then [i] else []
    {
      hide Leaves, FinalProps;
      assert b[..i + 1][..i] == b[..i];
    }

    /** Looks at one accumulating event. */
    method BumpOne(i: nat, name: int, key: Text, v: int, now: nat, labels: Labels) returns (leaves: bool)
      requires i < |accumulated|
      modifies `events, `accumulated, `session, `changed
      ensures var e := Bump(old(accumulated)[i], name, key, v);
        && accumulated == old(accumulated)[i := e] && e.name == old(accumulated)[i].name
        && leaves == Leaves(e, name, now, folder)
        && session == old(session) + (if leaves then 1 else 0)
        && events == (if leaves then old(events) + [Event(name, now, old(session), FinalProps(e, folder, labels))]
                      else old(events))
    {
      hide IncrementProp, Finished, FinalProps, HasProp;
      leaves := false;
      if accumulated[i].name == name {
        var e := accumulated[i].(props := IncrementProp(accumulated[i].props, key, v));
        accumulated := accumulated[i := e];
        if Finished(e, now) && !(name == SEND_USED_TRAFFIC_SIZE && folder == 0) {
          FinalMarked(e, folder, labels);
          InsertFinished(name, FinalProps(e, folder, labels), now);
          leaves := true;
        }
      }
    }

    static lemma FinalMarked(e: Event, folder: nat, labels: Labels)
      ensures HasProp(FinalProps(e, folder, labels), ACCUMULATE_FINISHED)
    {
      assert NotReserved([]);
      FinalNumber(e, folder, labels, []);
    }

    method InsertFinished(name: int, props: seq<Prop>, now: nat)
      requires HasProp(props, ACCUMULATE_FINISHED)
      modifies `events, `accumulated, `session, `changed
      ensures events == old(events) + [Event(name, now, old(session), props)] && session == old(session) + 1
      ensures accumulated == old(accumulated)
    {
      hide HasProp, Placed;
      InsertEventAt(name, props, now, -1);
    }

    /** Erases the given positions, the last one first. */
    method EraseEach(toRemove: seq<nat>, ghost b: seq<Event>, name: int, now: nat)
      requires accumulated == b && toRemove == Leaving(b, name, now, folder)
      modifies `accumulated
      ensures accumulated == Kept(b, name, now, folder)
    {
      hide Leaves, Kept, Leaving;
      LeavingAscends(b, name, now, folder);
      var j := |toRemove|;
      ghost var p := |b|;
      NothingKept(name, now);
      assert b[..|b|] + [] == b && b[|b|..] == [];
      while j > 0
        invariant 0 <= j <= |toRemove| && p <= |b|
        invariant (j < |toRemove| ==> p == toRemove[j]) && (j == |toRemove| ==> p == |b|)
        invariant accumulated == b[..p] + Kept(b[p..], name, now, folder)
      {
        j := j - 1;
        var q := toRemove[j];
        assert q in toRemove;
        forall i | q < i < p
          ensures !Leaves(b[i], name, now, folder)
        {
          NoneBetween(b, j + 1, i, name, now, folder);
        }
        EraseOne(b, q, p, name, now, folder);
        accumulated := accumulated[..q] + accumulated[q + 1..];
        p := q;
      }
      forall i | 0 <= i < p
        ensures !Leaves(b[i], name, now, folder)
      {
        NoneBetween(b, 0, i, name, now, folder);
      }
      EraseDone(b, p, name, now, folder);
    }

    lemma NothingKept(name: int, now: nat)
      ensures Kept([], name, now, folder) == []
    {
    }

    /** After sending, only the newest start of a session stays. */
    method Clear(now: int)
      modifies `events, `lastSent, `changed
      ensures events == [] <==> old(events) == []
      ensures old(events) != [] ==> exists k: nat :: KeptByClear(old(events), k) && events == [old(events)[k]]
      ensures lastSent == now && changed && accumulated == old(accumulated)
      ensures old(Valid()) ==> Valid()
    {
      hide HasProp;
      lastSent := now;
      if events != [] {
        var k := |events| - 1;
        while k > 0 && events[k].name != SERVICE_SESSION_START
          invariant 0 <= k < |events| && forall i :: k < i < |events| ==> events[i].name != SERVICE_SESSION_START
        {
          k := k - 1;
        }
        assert KeptByClear(events, k);
        events := [events[k]];
      }
      changed := true;
    }

    method SetDiskStats(size: nat)
      modifies `folder
      ensures folder == size && (old(Valid()) ==> Valid())
    {
      folder := size;
    }

    // ----- The file -----

    method Serialize() returns (file: seq<Byte>)
      requires StatsFit(Seen())
      ensures file == EncodeFile(Seen())
    {
      hide EventFits, Pack, EventParts;
      ghost var all := events + accumulated;
      var pack := [Tlv(1, Pack(HeaderParts(lastSent)))];
      assert forall i :: 0 <= i < |accumulated| ==> accumulated[i] == all[|events| + i];
      assert forall i :: 0 <= i < |events| ==> events[i] == all[i];
      var part := SerializeEvents(events, 1);
      pack := pack + part;
      part := SerializeEvents(accumulated, 1 + |events|);
      ItemsConcat(events, accumulated, 1);
      pack := pack + part;
      assert pack == [Tlv(1, Pack(HeaderParts(lastSent)))] + EventItems(all, 1);
      file := Pack(pack);
    }

    method SerializeEvents(es: seq<Event>, start: nat) returns (items: seq<Tlv>)
      requires forall i :: 0 <= i < |es| ==> EventFits(es[i])
      ensures items == EventItems(es, start)
    {
      hide EventFits, Pack, EventParts;
      items := [];
      var counter := start;
      for i := 0 to |es|
        invariant items == EventItems(es[..i], start) && counter == start + i
      {
        counter := counter + 1;
        ItemsConcat(es[..i], [es[i]], start);
        assert es[..i + 1] == es[..i] + [es[i]];
        OneItem(es[i], start + i);
        items := items + [Tlv(counter, Pack(EventParts(es[i])))];
      }
      assert es[..|es|] == es;
    }

    static lemma OneItem(e: Event, counter: nat)
      requires EventFits(e)
      ensures EventItems([e], counter) == [Tlv(counter + 1, Pack(EventParts(e)))]
    {
      hide EventFits, Pack, EventParts;
      assert [e][1..] == [];
      assert EventItems([e][1..], counter + 1) == [];
    }

    static lemma {:induction false} ItemsConcat(a: seq<Event>, b: seq<Event>, counter: nat)
      requires (forall i :: 0 <= i < |a| ==> EventFits(a[i])) && (forall i :: 0 <= i < |b| ==> EventFits(b[i]))
      ensures EventItems(a + b, counter) == EventItems(a, counter) + EventItems(b, counter + |a|)
      decreases |a|
    {
      hide EventFits, Pack, EventParts;
      if a == [] {
        assert a + b == b;
      } else {
        assert (a + b)[1..] == a[1..] + b;
        ItemsConcat(a[1..], b, counter + 1);
      }
    }

    method Unserialize(file: seq<Byte>) returns (ok: bool)
      modifies `events, `accumulated, `session, `lastSent, `changed
      ensures Read(Seen(), ok) == ReadFile(old(Seen()), file)
      ensures old(Valid()) ==> Valid()
    {
      hide InsertEvent, Placed, ReadEvent, Unpack, Item, ReadInt;
      if file == [] {
        return false;
      }
      var pack := Unpack(file);
      if !pack.ok {
        return false;
      }
      var i := 0;
      ok := true;
      while i < |pack.items| && ok
        invariant i <= |pack.items| && (i == 0 ==> ok && Seen() == old(Seen()))
        invariant i > 0 ==>
          ReadFile(old(Seen()), file) == if ok then ReadEvents(Seen(), pack.items[i..]) else Read(Seen(), false)
        invariant i == 0 ==> !changed || old(changed)
        invariant old(Valid()) ==> Valid()
      {
        var u := Unpack(pack.items[i].value);
        if i == 0 {
          ok := ReadHeader(u);
        } else {
          assert pack.items[i..][1..] == pack.items[i + 1..];
          ok := false;
          if u.ok {
            ok := ReadOne(u.items);
          }
        }
        i := i + 1;
      }
    }

    method ReadHeader(u: Unpacked) returns (ok: bool)
      modifies `lastSent
      ensures ok == (u.ok && Item(u.items, LAST_SENT_TIME).Some?)
      ensures lastSent == if ok then 1000 * ReadInt(Item(u.items, LAST_SENT_TIME).value, 8) else old(lastSent)
      ensures old(Valid()) ==> Valid()
    {
      var sent := Item(u.items, LAST_SENT_TIME);
      if !u.ok || sent.None? {
        return false;
      }
      lastSent := 1000 * ReadInt(sent.value, 8);
      return true;
    }

    method ReadOne(parts: seq<Tlv>) returns (ok: bool)
      modifies `events, `accumulated, `session, `changed
      ensures Read(Seen(), ok) == ReadEvent(old(Seen()), parts)
      ensures old(Valid()) ==> Valid()
    {
      hide InsertEvent, Placed, Unpack, Item, ReadInt, ReadProps;
      var name, time, id := Item(parts, EVENT_NAME), Item(parts, EVENT_TIME), Item(parts, EVENT_ID);
      if name.None? || time.None? || id.None? {
        return false;
      }
      var props: Option<seq<Prop>> := Some([]);
      var packed := Item(parts, EVENT_PROPS);
      if packed.Some? {
        props := ReadProps(Unpack(packed.value).items);
        if props.None? {
          return false;
        }
      }
      InsertEventAt(ReadInt(name.value, 4), props.value, 1000 * ReadInt(time.value, 8), Wrap(ReadInt(id.value, 8)));
      return true;
    }
  }
}
