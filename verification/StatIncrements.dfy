/** Accumulating events: incrementing, finishing and what is conserved
    (core/statistics.cpp). */
module StatIncrements {
  import opened Searching
  import opened Tlvs
  import opened StatEvents

  /** Names for the size of the user's folder (bytes) and for traffic (bytes). */
  datatype Labels = Labels(space: nat -> Text, traffic: int -> Text)

  const USED_SPACE := Ascii("used_space")
  const USED_SPACE_INTERVAL := Ascii("used_space_interval")
  const DOWNLOAD := Ascii("download")
  const UPLOAD := Ascii("upload")
  const DOWNLOAD_INTERVAL := Ascii("download_interval")
  const UPLOAD_INTERVAL := Ascii("upload_interval")
  const MEGABYTE := 1_048_576

  /** `folder` is the size of the user's folder; 0 while it is not known. */
  datatype Stats = Stats(events: seq<Event>, accumulated: seq<Event>, session: int, folder: nat, lastSent: int)

  // ----- Inserting -----

  predicate Accumulating(name: int, props: seq<Prop>) { Accumulates(name) && !HasProp(props, ACCUMULATE_FINISHED) }

  /** `insert_event` with all arguments; id -1 takes the next number of the session. */
  function InsertEvent(s: Stats, name: int, props: seq<Prop>, time: int, id: int): Stats {
    var e := Event(name, time, if id == -1 then s.session else id, props);
    var session := if id == -1 then s.session + 1 else s.session;
    if Accumulating(name, props) then s.(accumulated := s.accumulated + [e], session := session)
    else s.(events := s.events + [e], session := session)
  }

  function Insert(s: Stats, name: int, props: seq<Prop>, now: nat): Stats {
    if name == START_SESSION then
      InsertEvent(InsertEvent(s.(session := 0), SERVICE_SESSION_START, props, now, -1), name, props, now, -1)
    else InsertEvent(s, name, props, now, -1)
  }

  // ----- Incrementing -----

  function Bump(e: Event, name: int, key: Text, v: int): Event {
    if e.name == name then e.(props := IncrementProp(e.props, key, v)) else e
  }

  function BumpAll(es: seq<Event>, name: int, key: Text, v: int): (r: seq<Event>)
    ensures |r| == |es| && forall i :: 0 <= i < |es| ==> r[i] == Bump(es[i], name, key, v)
  {
    seq(|es|, i requires 0 <= i < |es| => Bump(es[i], name, key, v))
  }

  /** `finished_accumulating`. */
  predicate Finished(e: Event, now: int) {
    Accumulates(e.name) && HasProp(e.props, START_ACCUM_TIME) ==>
      now - NumberOf(e.props, START_ACCUM_TIME) > ACCUMULATION_TIME
  }

  /** Does an incremented event leave the accumulating ones? Traffic waits for the folder size. */
  predicate Leaves(e: Event, name: int, now: int, folder: nat) {
    e.name == name && Finished(e, now) && !(name == SEND_USED_TRAFFIC_SIZE && folder == 0)
  }

  function TrafficProps(props: seq<Prop>, folder: nat, labels: Labels): seq<Prop> {
    props
    + (if folder != 0 then
         [Prop(USED_SPACE, Decimal(folder / MEGABYTE)), Prop(USED_SPACE_INTERVAL, labels.space(folder))]
       else [])
    + [Prop(DOWNLOAD_INTERVAL, labels.traffic(NumberOf(props, DOWNLOAD))),
       Prop(UPLOAD_INTERVAL, labels.traffic(NumberOf(props, UPLOAD)))]
  }

  function FinalProps(e: Event, folder: nat, labels: Labels): seq<Prop> {
    var props := e.props + [Prop(ACCUMULATE_FINISHED, [])];
    if e.name == SEND_USED_TRAFFIC_SIZE then TrafficProps(props, folder, labels) else props
  }

  /** The events that stay, in order. */
  function Kept(es: seq<Event>, name: int, now: int, folder: nat): seq<Event> {
    if es == [] then []
    else
      var n := |es| - 1;
      var k := Kept(es[..n], name, now, folder);
      if Leaves(es[n], name, now, folder) then k else k + [es[n]]
  }

  /** The events that leave, finished and with fresh time and numbers. */
  function Left(es: seq<Event>, name: int, now: nat, folder: nat, session: int, labels: Labels): seq<Event> {
    if es == [] then []
    else
      var n := |es| - 1;
      var l := Left(es[..n], name, now, folder, session, labels);
      if Leaves(es[n], name, now, folder) then
        l + [Event(name, now, session + |l|, FinalProps(es[n], folder, labels))]
      else l
  }

  function Named(es: seq<Event>, name: int): nat {
    if es == [] then 0 else Named(es[..|es| - 1], name) + if es[|es| - 1].name == name then 1 else 0
  }

  /** `increment_event_prop`. */
  function Increment(s: Stats, name: int, key: Text, v: int, now: nat, labels: Labels): Stats {
    var b := BumpAll(s.accumulated, name, key, v);
    var l := Left(b, name, now, s.folder, s.session, labels);
    var r := s.(events := s.events + l, accumulated := Kept(b, name, now, s.folder), session := s.session + |l|);
    if Named(s.accumulated, name) == 0 then
      Insert(r, name, [Prop(START_ACCUM_TIME, Decimal(now)), Prop(key, Decimal(v))], now)
    else r
  }

  // ----- Conservation -----

  function Sum(es: seq<Event>, name: int, key: Text): int {
    if es == [] then 0
    else Sum(es[..|es| - 1], name, key) + if es[|es| - 1].name == name then NumberOf(es[|es| - 1].props, key) else 0
  }

  /** What all events of a name hold of a property together. */
  function Total(s: Stats, name: int, key: Text): int { Sum(s.events, name, key) + Sum(s.accumulated, name, key) }

  lemma {:induction false} SumConcat(a: seq<Event>, b: seq<Event>, name: int, key: Text)
    ensures Sum(a + b, name, key) == Sum(a, name, key) + Sum(b, name, key)
  {
    hide NumberOf;
    if b == [] {
      assert a + b == a;
    } else {
      assert (a + b)[..|a| + |b| - 1] == a + b[..|b| - 1];
      SumConcat(a, b[..|b| - 1], name, key);
    }
  }

  /** Each event holds a number from 0 up to a limit. */
  predicate Small(es: seq<Event>, name: int, key: Text, limit: int) {
    forall i :: 0 <= i < |es| && es[i].name == name ==> 0 <= NumberOf(es[i].props, key) <= limit
  }

  predicate NotReserved(key: Text) {
    && key != START_ACCUM_TIME && key != ACCUMULATE_FINISHED && key != USED_SPACE
    && key != USED_SPACE_INTERVAL && key != DOWNLOAD_INTERVAL && key != UPLOAD_INTERVAL
  }

  lemma SumSnoc(es: seq<Event>, e: Event, name: int, key: Text)
    ensures Sum(es + [e], name, key) == Sum(es, name, key) + if e.name == name then NumberOf(e.props, key) else 0
    ensures Named(es + [e], name) == Named(es, name) + if e.name == name then 1 else 0
  {
    assert (es + [e])[..|es|] == es;
  }

  lemma BumpSnoc(es: seq<Event>, e: Event, name: int, k: Text, v: int)
    ensures BumpAll(es + [e], name, k, v) == BumpAll(es, name, k, v) + [Bump(e, name, k, v)]
  {
    var b := BumpAll(es, name, k, v) + [Bump(e, name, k, v)];
    assert forall i :: 0 <= i < |b| ==> BumpAll(es + [e], name, k, v)[i] == b[i];
  }

  lemma NoEvents(name: int, k: Text, v: int, key: Text)
    ensures Sum([], name, key) == 0 && Named([], name) == 0 && BumpAll([], name, k, v) == []
  {
  }

  /** What an increment adds to the sum of a property over a list: nothing for other properties. */
  function Added(es: seq<Event>, name: int, k: Text, v: int, key: Text): int {
    if Named(es, name) == 1 && k == key then v else 0
  }

  lemma {:induction false} BumpSum(es: seq<Event>, name: int, k: Text, v: int, key: Text)
    requires Named(es, name) <= 1
    ensures var b := BumpAll(es, name, k, v);
      && Named(b, name) == Named(es, name)
      && (Sum(b, name, key) - Sum(es, name, key) - Added(es, name, k, v, key)) % U32 == 0
  {
    hide IncrementProp, NumberOf, HasProp, BumpAll, Sum, Named;
    NoEvents(name, k, v, key);
    if es == [] {
    } else {
      var n := |es| - 1;
      assert es == es[..n] + [es[n]];
      SumSnoc(es[..n], es[n], name, key);
      BumpSnoc(es[..n], es[n], name, k, v);
      SumSnoc(BumpAll(es[..n], name, k, v), Bump(es[n], name, k, v), name, key);
      BumpSum(es[..n], name, k, v, key);
      if es[n].name == name {
        Incremented(es[n].props, k, v, key);
      }
    }
  }

  lemma {:induction false} BumpSumExact(es: seq<Event>, name: int, k: Text, v: int, key: Text, m: int)
    requires Named(es, name) <= 1 && Small(es, name, key, m) && (k == key ==> v >= 0 && m + v < 0x8000_0000)
    ensures Sum(BumpAll(es, name, k, v), name, key) == Sum(es, name, key) + Added(es, name, k, v, key)
  {
    hide IncrementProp, NumberOf, HasProp, BumpAll, Sum, Named, Small;
    NoEvents(name, k, v, key);
    if es == [] {
    } else {
      var n := |es| - 1;
      assert es == es[..n] + [es[n]];
      SumSnoc(es[..n], es[n], name, key);
      BumpSnoc(es[..n], es[n], name, k, v);
      SumSnoc(BumpAll(es[..n], name, k, v), Bump(es[n], name, k, v), name, key);
      SmallParts(es, n, name, key, m);
      BumpSumExact(es[..n], name, k, v, key, m);
      if es[n].name == name {
        Incremented(es[n].props, k, v, key);
      }
    }
  }

  lemma SmallParts(es: seq<Event>, n: nat, name: int, key: Text, m: int)
    requires n < |es| && Small(es, name, key, m)
    ensures Small(es[..n], name, key, m) && (es[n].name == name ==> 0 <= NumberOf(es[n].props, key) <= m)
  {
  }

  lemma BumpSmall(es: seq<Event>, name: int, k: Text, v: int, key: Text, m: int)
    requires Small(es, name, key, m) && (k == key ==> v >= 0 && m + v < 0x8000_0000)
    ensures Small(BumpAll(es, name, k, v), name, key, if k == key then m + v else m)
  {
    hide IncrementProp, NumberOf, HasProp;
    forall i | 0 <= i < |es| && es[i].name == name
      ensures 0 <= NumberOf(IncrementProp(es[i].props, k, v), key) <= if k == key then m + v else m
    {
      Incremented(es[i].props, k, v, key);
    }
  }

  lemma FinalNumber(e: Event, folder: nat, labels: Labels, key: Text)
    requires NotReserved(key)
    ensures NumberOf(FinalProps(e, folder, labels), key) == NumberOf(e.props, key)
    ensures HasProp(FinalProps(e, folder, labels), ACCUMULATE_FINISHED)
  {
    hide NumberOf, Find;
    var props := FinalProps(e, folder, labels);
    var more := props[|e.props|..];
    assert props == e.props + more;
    assert props[|e.props|].key == ACCUMULATE_FINISHED;
    assert forall i :: 0 <= i < |more| ==> more[i].key != key;
    if HasProp(e.props, key) {
      FindAppend(e.props, more, key);
    } else {
      FindIs(props, WithKey(key), |props|);
      NumberAbsent(props, key);
      NumberAbsent(e.props, key);
    }
    var f := Find(props, WithKey(ACCUMULATE_FINISHED));
  }

  lemma NumberAbsent(props: seq<Prop>, key: Text)
    requires !HasProp(props, key)
    ensures NumberOf(props, key) == 0
  {
  }

  /** The events that stay and those that leave are all the events; leaving changes no number. */
  lemma {:induction false} SplitSum(b: seq<Event>, name: int, now: nat, folder: nat, session: int, labels: Labels,
                                    key: Text)
    requires NotReserved(key)
    ensures var k, l := Kept(b, name, now, folder), Left(b, name, now, folder, session, labels);
      && Sum(k, name, key) + Sum(l, name, key) == Sum(b, name, key)
      && Named(k, name) + |l| == Named(b, name)
  {
    hide NumberOf, HasProp, FinalProps, Leaves, NotReserved, Sum, Named;
    NoEvents(name, key, 0, key);
    if b == [] {
    } else {
      var n := |b| - 1;
      assert b == b[..n] + [b[n]];
      SumSnoc(b[..n], b[n], name, key);
      SplitSum(b[..n], name, now, folder, session, labels, key);
      var k, l := Kept(b[..n], name, now, folder), Left(b[..n], name, now, folder, session, labels);
      FinalNumber(b[n], folder, labels, key);
      LeavesNamed(b[n], name, now, folder);
      SumSnoc(k, b[n], name, key);
      SumSnoc(l, Event(name, now, session + |l|, FinalProps(b[n], folder, labels)), name, key);
    }
  }

  lemma {:induction false} SplitEvents(b: seq<Event>, name: int, now: nat, folder: nat, session: int, labels: Labels,
                                       key: Text, m: int)
    requires NotReserved(key)
    ensures var k, l := Kept(b, name, now, folder), Left(b, name, now, folder, session, labels);
      Small(b, name, key, m) ==> Small(k, name, key, m) && Small(l, name, key, m)
  {
    hide NumberOf, HasProp, FinalProps, Leaves, NotReserved;
    if b == [] {
    } else {
      var n := |b| - 1;
      SplitEvents(b[..n], name, now, folder, session, labels, key, m);
      FinalNumber(b[n], folder, labels, key);
      LeavesNamed(b[n], name, now, folder);
    }
  }

  predicate Marked(e: Event) { HasProp(e.props, ACCUMULATE_FINISHED) }

  predicate AllMarked(es: seq<Event>) { forall i :: 0 <= i < |es| ==> Marked(es[i]) }

  lemma {:induction false} LeftMarked(b: seq<Event>, name: int, now: nat, folder: nat, session: int, labels: Labels)
    ensures AllMarked(Left(b, name, now, folder, session, labels))
  {
    hide Marked, FinalProps, Leaves;
    if b == [] {
    } else {
      var n := |b| - 1;
      var l := Left(b[..n], name, now, folder, session, labels);
      LeftMarked(b[..n], name, now, folder, session, labels);
      var e := Event(name, now, session + |l|, FinalProps(b[n], folder, labels));
      FinalMarked(e, b[n], folder, labels);
      var r := Left(b, name, now, folder, session, labels);
      assert r == if Leaves(b[n], name, now, folder) then l + [e] else l;
    }
  }

  lemma FinalMarked(e: Event, was: Event, folder: nat, labels: Labels)
    requires e.props == FinalProps(was, folder, labels)
    ensures Marked(e)
  {
    assert NotReserved([]);
    FinalNumber(was, folder, labels, []);
  }

  lemma {:induction false} KeptIn(b: seq<Event>, name: int, now: nat, folder: nat)
    ensures forall e :: e in Kept(b, name, now, folder) ==> e in b
  {
    hide Leaves;
    if b == [] {
    } else {
      var n := |b| - 1;
      KeptIn(b[..n], name, now, folder);
      var k := Kept(b[..n], name, now, folder);
      assert b[n] in b && forall e :: e in k ==> e in b;
      assert forall e :: e in k + [b[n]] ==> e in k || e == b[n];
    }
  }

  lemma LeavesNamed(e: Event, name: int, now: nat, folder: nat)
    ensures Leaves(e, name, now, folder) ==> e.name == name
  {
  }
}
