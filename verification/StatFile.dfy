/** The statistics file: what is written and what reading it restores
    (core/statistics.cpp). */
module StatFile {
  import opened Options
  import opened Tlvs
  import opened StatEvents
  import opened StatIncrements

  const EVENT_NAME := 1
  const EVENT_PROPS := 4
  const EVENT_PROP_NAME := 5
  const EVENT_PROP_VALUE := 6
  const LAST_SENT_TIME := 7
  const EVENT_TIME := 8
  const EVENT_ID := 9

  // ----- Integers of fixed width -----

  function Int(n: int, k: nat): seq<Byte>
    requires 0 <= n + Power(k)
  {
    Bytes(if n < 0 then n + Power(k) else n, k)
  }

  /** A value that is too short reads as zero. */
  function ReadInt(v: seq<Byte>, k: nat): int {
    if |v| < k then 0
    else
      var n := Tlvs.Number(v[..k]);
      if 2 * n < Power(k) then n else n - Power(k)
  }

  lemma IntRoundTrip(n: int, k: nat)
    requires 0 <= 2 * n + Power(k) && 2 * n < Power(k)
    ensures |Int(n, k)| == k && ReadInt(Int(n, k), k) == n
  {
    var m := if n < 0 then n + Power(k) else n;
    NumberOfBytes(m, k);
    assert Int(n, k)[..k] == Int(n, k);
  }

  // ----- Writing -----

  function EncodeProp(p: Prop): seq<Byte> { Pack([Tlv(EVENT_PROP_NAME, p.key), Tlv(EVENT_PROP_VALUE, p.value)]) }

  function PropItems(props: seq<Prop>, counter: nat): seq<Tlv> {
    if props == [] then [] else [Tlv(counter + 1, EncodeProp(props[0]))] + PropItems(props[1..], counter + 1)
  }

  predicate Small32(n: int) { -0x8000_0000 <= n < 0x8000_0000 }

  /** The sizes and ranges that the format can hold, for times not before 1970. */
  predicate EventFits(e: Event) {
    && Small32(e.name) && Small32(e.id) && 0 <= e.time < U64
    && |e.props| < U32 / 2 && PropsSize(e.props) + 60 < U32
  }

  function PropsSize(props: seq<Prop>): nat {
    if props == [] then 0 else 24 + |props[0].key| + |props[0].value| + PropsSize(props[1..])
  }

  function EventParts(e: Event): seq<Tlv>
    requires EventFits(e)
  {
    Powers();
    [Tlv(EVENT_NAME, Int(e.name, 4)), Tlv(EVENT_TIME, Int(e.time / 1000, 8)), Tlv(EVENT_ID, Int(e.id, 8)),
     Tlv(EVENT_PROPS, Pack(PropItems(e.props, 0)))]
  }

  function EventItems(es: seq<Event>, counter: nat): seq<Tlv>
    requires forall i :: 0 <= i < |es| ==> EventFits(es[i])
  {
    if es == [] then [] else [Tlv(counter + 1, Pack(EventParts(es[0])))] + EventItems(es[1..], counter + 1)
  }

  predicate StatsFit(s: Stats) {
    && 0 <= s.lastSent < U64 && |s.events| + |s.accumulated| + 1 < U32 / 2
    && forall i :: 0 <= i < |s.events + s.accumulated| ==> EventFits((s.events + s.accumulated)[i])
  }

  function HeaderParts(lastSent: int): seq<Tlv>
    requires 0 <= lastSent < U64
  {
    Powers();
    [Tlv(LAST_SENT_TIME, Int(lastSent / 1000, 8))]
  }

  function EncodeFile(s: Stats): seq<Byte>
    requires StatsFit(s)
  {
    Pack([Tlv(1, Pack(HeaderParts(s.lastSent)))] + EventItems(s.events + s.accumulated, 1))
  }

  // ----- Reading -----

  function ReadProps(items: seq<Tlv>): Option<seq<Prop>> {
    if items == [] then Some([])
    else
      var u := Unpack(items[0].value);
      var key, value := Item(u.items, EVENT_PROP_NAME), Item(u.items, EVENT_PROP_VALUE);
      if !u.ok || key.None? || value.None? then None
      else
        var rest := ReadProps(items[1..]);
        if rest.None? then None else Some([Prop(key.value, value.value)] + rest.value)
  }

  datatype Read = Read(stats: Stats, ok: bool)

  function ReadEvent(s: Stats, parts: seq<Tlv>): Read {
    var name, time, id := Item(parts, EVENT_NAME), Item(parts, EVENT_TIME), Item(parts, EVENT_ID);
    if name.None? || time.None? || id.None? then Read(s, false)
    else
      var packed := Item(parts, EVENT_PROPS);
      var props := if packed.None? then Some([]) else ReadProps(Unpack(packed.value).items);
      if props.None? then Read(s, false)
      else
        var at, wrapped := 1000 * ReadInt(time.value, 8), Wrap(ReadInt(id.value, 8));
        Read(InsertEvent(s, ReadInt(name.value, 4), props.value, at, wrapped), true)
  }

  function ReadEvents(s: Stats, items: seq<Tlv>): Read
    decreases |items|
  {
    if items == [] then Read(s, true)
    else
      var u := Unpack(items[0].value);
      if !u.ok then Read(s, false)
      else
        var r := ReadEvent(s, u.items);
        if r.ok then ReadEvents(r.stats, items[1..]) else r
  }

  /** `unserialize`: what was read before a failure stays. */
  function ReadFile(s: Stats, file: seq<Byte>): Read {
    var pack := Unpack(file);
    if file == [] || !pack.ok then Read(s, false)
    else if pack.items == [] then Read(s, true)
    else
      var u := Unpack(pack.items[0].value);
      if !u.ok then Read(s, false)
      else
        var sent := Item(u.items, LAST_SENT_TIME);
        if sent.None? then Read(s, false)
        else ReadEvents(s.(lastSent := 1000 * ReadInt(sent.value, 8)), pack.items[1..])
  }

  // ----- Parts round trip -----

  lemma PackTwo(a: Tlv, b: Tlv)
    ensures |Pack([a, b])| == 16 + |a.value| + |b.value|
  {
    assert [a, b][1..] == [b] && [b][1..] == [];
    assert |Encode(a)| == 8 + |a.value| && |Encode(b)| == 8 + |b.value|;
    assert Pack([b]) == Encode(b) + Pack([]);
  }

  lemma PackFront(a: Tlv, rest: seq<Tlv>)
    ensures Pack([a] + rest) == Encode(a) + Pack(rest) && |Encode(a)| == 8 + |a.value|
  {
    assert ([a] + rest)[1..] == rest;
  }

  lemma {:induction false} PropsRoundTrip(props: seq<Prop>, counter: nat)
    requires counter + |props| < U32 && PropsSize(props) < U32
    ensures var items := PropItems(props, counter);
      AllFit(items) && |Pack(items)| == PropsSize(props) && ReadProps(items) == Some(props)
  {
    hide Unpack, Encode;
    if props == [] {
    } else {
      var p, rest := props[0], PropItems(props[1..], counter + 1);
      PropsRoundTrip(props[1..], counter + 1);
      PropRoundTrip(p);
      PackFront(Tlv(counter + 1, EncodeProp(p)), rest);
      hide EncodeProp, Item;
      assert PropItems(props, counter)[1..] == rest;
      assert [Prop(p.key, p.value)] + props[1..] == props;
    }
  }

  lemma PropRoundTrip(p: Prop)
    requires |p.key| + |p.value| + 16 < U32
    ensures var b := EncodeProp(p);
      && |b| == 16 + |p.key| + |p.value| && Unpack(b).ok
      && Item(Unpack(b).items, EVENT_PROP_NAME) == Some(p.key)
      && Item(Unpack(b).items, EVENT_PROP_VALUE) == Some(p.value)
  {
    hide Unpack, Encode, Pack;
    var ts := [Tlv(EVENT_PROP_NAME, p.key), Tlv(EVENT_PROP_VALUE, p.value)];
    UnpackPack(ts);
    PackTwo(ts[0], ts[1]);
    assert ts[1..] == [Tlv(EVENT_PROP_VALUE, p.value)];
  }

  /** An event reads back with its time cut to whole seconds. */
  function Whole(e: Event): Event { e.(time := 1000 * (e.time / 1000)) }

  lemma ItemFront(a: Tlv, rest: seq<Tlv>, k: nat)
    ensures Item([a] + rest, k) == if a.kind == k then Some(a.value) else Item(rest, k)
    ensures Item([], k) == None
  {
    assert ([a] + rest)[1..] == rest;
  }

  lemma FourItems(a: Tlv, b: Tlv, c: Tlv, d: Tlv)
    requires a.kind == EVENT_NAME && b.kind == EVENT_TIME && c.kind == EVENT_ID && d.kind == EVENT_PROPS
    ensures var ts := [a, b, c, d];
      && Item(ts, EVENT_NAME) == Some(a.value) && Item(ts, EVENT_TIME) == Some(b.value)
      && Item(ts, EVENT_ID) == Some(c.value) && Item(ts, EVENT_PROPS) == Some(d.value)
      && |Pack(ts)| == 32 + |a.value| + |b.value| + |c.value| + |d.value|
  {
    var ts := [a, b, c, d];
    hide Item, Pack, Encode;
    assert [c, d] == [c] + [d] && [d] == [d] + [];
    assert ts == [a] + [b, c, d] && [b, c, d] == [b] + [c, d];
    PackFront(a, [b, c, d]);
    PackFront(b, [c, d]);
    PackTwo(c, d);
    forall k | k == EVENT_NAME || k == EVENT_TIME || k == EVENT_ID || k == EVENT_PROPS
      ensures Item(ts, k) == if a.kind == k then Some(a.value) else Item([b, c, d], k)
      ensures Item([b, c, d], k) == if b.kind == k then Some(b.value) else Item([c, d], k)
      ensures Item([c, d], k) == if c.kind == k then Some(c.value) else Item([d], k)
      ensures Item([d], k) == if d.kind == k then Some(d.value) else None
    {
      ItemFront(a, [b, c, d], k);
      ItemFront(b, [c, d], k);
      ItemFront(c, [d], k);
      ItemFront(d, [], k);
    }
  }

  lemma EventRoundTrip(s: Stats, e: Event)
    requires EventFits(e)
    ensures var ts := EventParts(e);
      && AllFit(ts) && |Pack(ts)| < U32
      && ReadEvent(s, ts) == Read(InsertEvent(s, e.name, e.props, Whole(e).time, e.id), true)
  {
    hide Unpack, Encode, Pack, Item, Int, ReadInt, Power, InsertEvent, ReadProps;
    Powers();
    var ts := EventParts(e);
    FourItems(ts[0], ts[1], ts[2], ts[3]);
    IntRoundTrip(e.name, 4);
    IntRoundTrip(e.time / 1000, 8);
    IntRoundTrip(e.id, 8);
    PropsRoundTrip(e.props, 0);
    UnpackPack(PropItems(e.props, 0));
    assert ts == [ts[0], ts[1], ts[2], ts[3]];
  }

  // ----- The whole file -----

  /** Each event inserted in turn, as read. */
  function InsertEach(s: Stats, es: seq<Event>): Stats
    decreases |es|
  {
    if es == [] then s
    else InsertEach(InsertEvent(s, es[0].name, es[0].props, Whole(es[0]).time, es[0].id), es[1..])
  }

  lemma {:induction false} EventsRoundTrip(s: Stats, es: seq<Event>, counter: nat)
    requires counter + |es| < U32 && forall i :: 0 <= i < |es| ==> EventFits(es[i])
    ensures AllFit(EventItems(es, counter)) && ReadEvents(s, EventItems(es, counter)) == Read(InsertEach(s, es), true)
    decreases |es|
  {
    hide EventFits, Pack, Unpack, ReadEvent, EventParts, InsertEvent, Whole;
    if es == [] {
    } else {
      EventRoundTrip(s, es[0]);
      UnpackPack(EventParts(es[0]));
      var next := InsertEvent(s, es[0].name, es[0].props, Whole(es[0]).time, es[0].id);
      EventsRoundTrip(next, es[1..], counter + 1);
      assert EventItems(es, counter)[1..] == EventItems(es[1..], counter + 1);
    }
  }

  lemma HeaderRoundTrip(lastSent: int)
    requires 0 <= lastSent < U64
    ensures var ts := HeaderParts(lastSent);
      && AllFit(ts) && |Pack(ts)| < U32
      && Item(ts, LAST_SENT_TIME).Some? && ReadInt(Item(ts, LAST_SENT_TIME).value, 8) == lastSent / 1000
  {
    hide Int, ReadInt, Power;
    Powers();
    IntRoundTrip(lastSent / 1000, 8);
    PackFront(HeaderParts(lastSent)[0], []);
    assert HeaderParts(lastSent) == [HeaderParts(lastSent)[0]] + [];
  }

  lemma FileRoundTrip(s: Stats, t: Stats)
    requires StatsFit(s)
    ensures ReadFile(t, EncodeFile(s)) ==
      Read(InsertEach(t.(lastSent := 1000 * (s.lastSent / 1000)), s.events + s.accumulated), true)
  {
    hide EventFits, Unpack, ReadEvents, EventItems, HeaderParts, InsertEach, ReadInt, Item, Encode;
    var header, es := Tlv(1, Pack(HeaderParts(s.lastSent))), s.events + s.accumulated;
    HeaderRoundTrip(s.lastSent);
    UnpackPack(HeaderParts(s.lastSent));
    EventsRoundTrip(t.(lastSent := 1000 * (s.lastSent / 1000)), es, 1);
    var items := [header] + EventItems(es, 1);
    UnpackPack(items);
    PackFront(header, EventItems(es, 1));
    assert items[1..] == EventItems(es, 1);
  }

  // ----- Where events are kept -----

  predicate AccumulatingEvent(e: Event) { Accumulating(e.name, e.props) }

  /** Accumulating events lie in the one list, all others in the other. */
  predicate Placed(s: Stats) {
    && (forall i :: 0 <= i < |s.events| ==> !AccumulatingEvent(s.events[i]))
    && (forall i :: 0 <= i < |s.accumulated| ==> AccumulatingEvent(s.accumulated[i]))
  }

  function Wholes(es: seq<Event>): (r: seq<Event>)
    ensures |r| == |es| && forall i :: 0 <= i < |es| ==> r[i] == Whole(es[i])
  {
    seq(|es|, i requires 0 <= i < |es| => Whole(es[i]))
  }

  lemma {:induction false} InsertEachConcat(s: Stats, a: seq<Event>, b: seq<Event>)
    ensures InsertEach(s, a + b) == InsertEach(InsertEach(s, a), b)
    decreases |a|
  {
    hide InsertEvent, Whole;
    if a == [] {
      assert a + b == b;
    } else {
      assert (a + b)[1..] == a[1..] + b;
      InsertEachConcat(InsertEvent(s, a[0].name, a[0].props, Whole(a[0]).time, a[0].id), a[1..], b);
    }
  }

  /** Inserting keeps every event in its list, and events of one kind in their order. */
  lemma {:induction false} InsertEachOf(s: Stats, es: seq<Event>, accumulating: bool)
    requires forall i :: 0 <= i < |es| ==> AccumulatingEvent(es[i]) == accumulating && es[i].id != -1
    ensures InsertEach(s, es) ==
      if accumulating then s.(accumulated := s.accumulated + Wholes(es)) else s.(events := s.events + Wholes(es))
    decreases |es|
  {
    hide HasProp;
    if es == [] {
      assert s.accumulated + Wholes(es) == s.accumulated && s.events + Wholes(es) == s.events;
    } else {
      var next := InsertEvent(s, es[0].name, es[0].props, Whole(es[0]).time, es[0].id);
      assert AccumulatingEvent(es[0]) == accumulating && es[0].id != -1;
      InsertEachOf(next, es[1..], accumulating);
      assert Wholes(es) == [Whole(es[0])] + Wholes(es[1..]);
      assert forall l: seq<Event> :: l + [Whole(es[0])] + Wholes(es[1..]) == l + Wholes(es);
    }
  }

  lemma {:induction false} InsertEachPlaced(s: Stats, es: seq<Event>)
    requires Placed(s)
    ensures Placed(InsertEach(s, es))
    decreases |es|
  {
    hide HasProp;
    if es == [] {
    } else {
      InsertEventPlaced(s, es[0].name, es[0].props, Whole(es[0]).time, es[0].id);
      InsertEachPlaced(InsertEvent(s, es[0].name, es[0].props, Whole(es[0]).time, es[0].id), es[1..]);
    }
  }

  lemma InsertEventPlaced(s: Stats, name: int, props: seq<Prop>, time: int, id: int)
    requires Placed(s)
    ensures Placed(InsertEvent(s, name, props, time, id))
  {
    hide HasProp;
  }

  /** Writing statistics and reading the file into a fresh object restores both lists in
      order, with whole seconds, exactly when every event lies in the right list. */
  lemma StatsRoundTrip(s: Stats, t: Stats)
    requires StatsFit(s) && t.events == [] && t.accumulated == []
    requires forall i :: 0 <= i < |s.events + s.accumulated| ==> (s.events + s.accumulated)[i].id != -1
    ensures var r := ReadFile(t, EncodeFile(s));
      && r.ok && r.stats.lastSent == 1000 * (s.lastSent / 1000)
      && (r.stats.events == Wholes(s.events) && r.stats.accumulated == Wholes(s.accumulated) <==> Placed(s))
  {
    hide HasProp, ReadFile, EncodeFile, InsertEvent, EventFits;
    FileRoundTrip(s, t);
    var u := t.(lastSent := 1000 * (s.lastSent / 1000));
    var all := s.events + s.accumulated;
    InsertEachPlaced(u, all);
    InsertEachLastSent(u, all);
    if Placed(s) {
      InsertEachConcat(u, s.events, s.accumulated);
      assert forall i :: 0 <= i < |s.events| ==> s.events[i] == all[i];
      assert forall i :: 0 <= i < |s.accumulated| ==> s.accumulated[i] == all[|s.events| + i];
      InsertEachOf(u, s.events, false);
      InsertEachOf(InsertEach(u, s.events), s.accumulated, true);
      assert [] + Wholes(s.events) == Wholes(s.events) && [] + Wholes(s.accumulated) == Wholes(s.accumulated);
    }
    assert forall e: Event :: AccumulatingEvent(Whole(e)) == AccumulatingEvent(e);
  }

  lemma {:induction false} InsertEachLastSent(s: Stats, es: seq<Event>)
    ensures InsertEach(s, es).lastSent == s.lastSent
    decreases |es|
  {
    if es == [] {
    } else {
      InsertEachLastSent(InsertEvent(s, es[0].name, es[0].props, Whole(es[0]).time, es[0].id), es[1..]);
    }
  }
}
