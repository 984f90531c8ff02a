/** When accumulated traffic is handed on for sending: a day after it began, once the size of
    the user's folder is known (core/statistics.cpp). */
module StatTimes {
  import opened Searching
  import opened Tlvs
  import opened StatEvents
  import opened StatIncrements
  import opened StatConservation

  /** When the event began to accumulate. */
  function Began(e: Event): int { NumberOf(e.props, START_ACCUM_TIME) }

  /** An event that still accumulates: it knows its beginning and not yet the folder size. */
  predicate Open(e: Event) { HasProp(e.props, START_ACCUM_TIME) && !HasProp(e.props, USED_SPACE) }

  predicate AllOpen(es: seq<Event>, name: int) { forall i :: 0 <= i < |es| && es[i].name == name ==> Open(es[i]) }

  /** An event handed on: it had begun more than 24 hours before, and says that it is finished. */
  predicate HandedOn(e: Event) {
    e.time - Began(e) > 24 * 60 * 60 * 1000 && HasProp(e.props, ACCUMULATE_FINISHED)
  }

  predicate AllHandedOn(es: seq<Event>, name: int) {
    forall i :: 0 <= i < |es| && es[i].name == name ==> HandedOn(es[i])
  }

  /** An event handed on at `now`, with the size of the folder in megabytes. */
  predicate HandedOnAt(e: Event, name: int, now: int, folder: nat) {
    e.name == name && e.time == now && HandedOn(e) && NumberOf(e.props, USED_SPACE) == folder / (1024 * 1024)
  }

  predicate AllHandedOnAt(es: seq<Event>, name: int, now: int, folder: nat) {
    forall i :: 0 <= i < |es| ==> HandedOnAt(es[i], name, now, folder)
  }

  /** No event of the name began more than 24 hours ago. */
  predicate NoneOverdue(es: seq<Event>, name: int, now: int) {
    forall i :: 0 <= i < |es| && es[i].name == name ==> now - Began(es[i]) <= 24 * 60 * 60 * 1000
  }

  // ----- One event -----

  lemma Keys()
    ensures |START_ACCUM_TIME| == 16 && |ACCUMULATE_FINISHED| == 19 && |USED_SPACE| == 10
    ensures |USED_SPACE_INTERVAL| == 19 && |DOWNLOAD_INTERVAL| == 17 && |UPLOAD_INTERVAL| == 15
  {
  }

  lemma LeavesIff(e: Event, name: int, now: int, folder: nat)
    requires e.name == name && Accumulates(name) && Open(e)
    ensures Leaves(e, name, now, folder) <==> folder != 0 && now - Began(e) > 24 * 60 * 60 * 1000
  {
    hide NumberOf, HasProp;
  }

  lemma BumpOpen(e: Event, name: int, k: Text, v: int)
    requires NotReserved(k) && Open(e)
    ensures var b := Bump(e, name, k, v); b.name == e.name && Open(b) && Began(b) == Began(e)
  {
    hide NumberOf, HasProp, IncrementProp;
    Incremented(e.props, k, v, START_ACCUM_TIME);
    Incremented(e.props, k, v, USED_SPACE);
  }

  /** Finishing keeps the beginning, sets the mark and adds the size of the folder in megabytes. */
  lemma FinalTimes(e: Event, folder: nat, labels: Labels)
    requires Open(e) && Accumulates(e.name)
    ensures var props := FinalProps(e, folder, labels);
      && NumberOf(props, START_ACCUM_TIME) == NumberOf(e.props, START_ACCUM_TIME)
      && HasProp(props, ACCUMULATE_FINISHED)
      && (folder != 0 ==> NumberOf(props, USED_SPACE) == folder / (1024 * 1024))
  {
    hide NumberOf, TrafficProps, NotReserved;
    var props := FinalProps(e, folder, labels);
    FinalShape(e, folder, labels);
    var more := props[|e.props|..];
    assert props == e.props + more;
    FindAppend(e.props, more, START_ACCUM_TIME);
    FinalMarked(e.(props := props), e, folder, labels);
    if folder != 0 {
      Keys();
      StollDecimal(folder / MEGABYTE);
      FindIs(props, WithKey(USED_SPACE), |e.props| + 1);
      NumberAt(props, USED_SPACE, |e.props| + 1, folder / MEGABYTE);
    }
  }

  lemma NumberAt(props: seq<Prop>, key: Text, k: nat, n: int)
    requires k < |props| && Find(props, WithKey(key)) == k && Stoll(props[k].value) == Options.Some(n)
    ensures NumberOf(props, key) == n
  {
  }

  lemma FinalShape(e: Event, folder: nat, labels: Labels)
    requires Accumulates(e.name)
    ensures var props := FinalProps(e, folder, labels);
      && |e.props| < |props| && props[..|e.props|] == e.props && props[|e.props|].key == ACCUMULATE_FINISHED
      && (folder != 0 ==>
           |e.props| + 1 < |props| && props[|e.props| + 1] == Prop(USED_SPACE, Decimal(folder / MEGABYTE)))
  {
    hide NumberOf, Decimal;
  }

  // ----- What is handed on -----

  /** The first property with a key holds this value. */
  predicate Told(props: seq<Prop>, key: Text, value: Text) {
    exists i :: 0 <= i < |props| && props[i] == Prop(key, value) && forall j :: 0 <= j < i ==> props[j].key != key
  }

  predicate NoneOf(props: seq<Prop>, key: Text) { forall i :: 0 <= i < |props| ==> props[i].key != key }

  lemma TwoKeys()
    ensures |DOWNLOAD| == 8 && |UPLOAD| == 6 && ACCUMULATE_FINISHED != USED_SPACE_INTERVAL
  {
    assert ACCUMULATE_FINISHED[0] != USED_SPACE_INTERVAL[0];
  }

  lemma ToldAt(props: seq<Prop>, n: nat, key: Text, value: Text)
    requires n < |props| && props[n] == Prop(key, value) && forall j :: 0 <= j < n ==> props[j].key != key
    ensures Told(props, key, value)
  {
  }

  /** Traffic that is handed on keeps what it has and tells its own downloads and uploads by their names, and the
      size of the folder, in megabytes and by its name. */
  lemma TrafficTold(e: Event, folder: nat, labels: Labels)
    requires e.name == SEND_USED_TRAFFIC_SIZE && folder != 0
    requires NoneOf(e.props, DOWNLOAD_INTERVAL) && NoneOf(e.props, UPLOAD_INTERVAL)
    requires NoneOf(e.props, USED_SPACE) && NoneOf(e.props, USED_SPACE_INTERVAL)
    ensures var f := FinalProps(e, folder, labels);
      && e.props <= f
      && Told(f, DOWNLOAD_INTERVAL, labels.traffic(NumberOf(e.props, DOWNLOAD)))
      && Told(f, UPLOAD_INTERVAL, labels.traffic(NumberOf(e.props, UPLOAD)))
      && Told(f, USED_SPACE, Decimal(folder / (1024 * 1024))) && Told(f, USED_SPACE_INTERVAL, labels.space(folder))
  {
    hide NumberOf, Decimal, Told;
    var n, f := |e.props|, FinalProps(e, folder, labels);
    Keys();
    TwoKeys();
    MarkKeepsNumber(e.props, DOWNLOAD);
    MarkKeepsNumber(e.props, UPLOAD);
    assert f[..n] == e.props && forall i :: 0 <= i < n ==> f[i] == e.props[i];
    assert f[n].key == ACCUMULATE_FINISHED;
    ToldAt(f, n + 1, USED_SPACE, Decimal(folder / MEGABYTE));
    ToldAt(f, n + 2, USED_SPACE_INTERVAL, labels.space(folder));
    ToldAt(f, n + 3, DOWNLOAD_INTERVAL, labels.traffic(NumberOf(e.props, DOWNLOAD)));
    ToldAt(f, n + 4, UPLOAD_INTERVAL, labels.traffic(NumberOf(e.props, UPLOAD)));
  }

  lemma MarkKeepsNumber(props: seq<Prop>, key: Text)
    requires |key| < 10
    ensures NumberOf(props + [Prop(ACCUMULATE_FINISHED, [])], key) == NumberOf(props, key)
  {
    hide Stoll;
    Keys();
    var more := [Prop(ACCUMULATE_FINISHED, [])];
    if HasProp(props, key) {
      FindAppend(props, more, key);
    } else {
      FindIs(props + more, WithKey(key), |props| + 1);
    }
  }

  // ----- Lists -----

  lemma BumpAllOpen(es: seq<Event>, name: int, k: Text, v: int)
    requires NotReserved(k) && AllOpen(es, name)
    ensures AllOpen(BumpAll(es, name, k, v), name)
  {
    hide Open, Bump, NotReserved;
    forall i | 0 <= i < |es| && Bump(es[i], name, k, v).name == name
      ensures Open(Bump(es[i], name, k, v))
    {
      BumpName(es[i], name, k, v);
      BumpOpen(es[i], name, k, v);
    }
  }

  lemma BumpName(e: Event, name: int, k: Text, v: int)
    ensures Bump(e, name, k, v).name == e.name
  {
  }

  lemma {:induction false} KeptStay(es: seq<Event>, name: int, now: int, folder: nat)
    ensures forall e :: e in Kept(es, name, now, folder) ==> e in es && !Leaves(e, name, now, folder)
  {
    hide Leaves;
    if es == [] {
    } else {
      KeptStay(es[..|es| - 1], name, now, folder);
    }
  }

  predicate MovedFrom(es: seq<Event>, name: int, now: nat, folder: nat, labels: Labels, m: Event) {
    exists i :: 0 <= i < |es| && Leaves(es[i], name, now, folder) && m.name == name && m.time == now
      && m.props == FinalProps(es[i], folder, labels)
  }

  lemma {:induction false} LeftMoved(es: seq<Event>, name: int, now: nat, folder: nat, session: int, labels: Labels)
    ensures forall m :: m in Left(es, name, now, folder, session, labels) ==>
      MovedFrom(es, name, now, folder, labels, m)
  {
    hide Leaves, FinalProps;
    if es == [] {
    } else {
      var n := |es| - 1;
      LeftMoved(es[..n], name, now, folder, session, labels);
      var l := Left(es[..n], name, now, folder, session, labels);
      forall m | m in Left(es, name, now, folder, session, labels)
        ensures MovedFrom(es, name, now, folder, labels, m)
      {
        if m in l {
          var i :| 0 <= i < n && Leaves(es[..n][i], name, now, folder) && m.name == name && m.time == now
            && m.props == FinalProps(es[..n][i], folder, labels);
          assert es[..n][i] == es[i];
        } else {
          assert Leaves(es[n], name, now, folder) && m.props == FinalProps(es[n], folder, labels);
        }
      }
    }
  }

  lemma KeptTimes(es: seq<Event>, name: int, now: int, folder: nat)
    requires Accumulates(name) && AllOpen(es, name)
    ensures var k := Kept(es, name, now, folder); AllOpen(k, name) && (folder != 0 ==> NoneOverdue(k, name, now))
  {
    hide Open, Leaves, Began;
    KeptStay(es, name, now, folder);
    var k := Kept(es, name, now, folder);
    forall i | 0 <= i < |k| && k[i].name == name
      ensures Open(k[i]) && (folder != 0 ==> now - Began(k[i]) <= 24 * 60 * 60 * 1000)
    {
      assert k[i] in es;
      LeavesIff(k[i], name, now, folder);
    }
  }

  lemma LeftTimes(es: seq<Event>, name: int, now: nat, folder: nat, session: int, labels: Labels)
    requires Accumulates(name) && AllOpen(es, name)
    ensures var l := Left(es, name, now, folder, session, labels);
      && (folder == 0 ==> l == [])
      && AllHandedOnAt(l, name, now, folder)
  {
    hide Open, Leaves, FinalProps, NumberOf, HasProp, Left;
    LeftMoved(es, name, now, folder, session, labels);
    var l := Left(es, name, now, folder, session, labels);
    forall i | 0 <= i < |l|
      ensures folder != 0 && HandedOnAt(l[i], name, now, folder)
    {
      assert l[i] in l;
      var j :| 0 <= j < |es| && Leaves(es[j], name, now, folder) && l[i].name == name && l[i].time == now
        && l[i].props == FinalProps(es[j], folder, labels);
      LeavesName(es[j], name, now, folder);
      LeavesIff(es[j], name, now, folder);
      FinalTimes(es[j], folder, labels);
    }
    if l != [] {
      assert HandedOnAt(l[0], name, now, folder);
    }
  }

  lemma LeavesName(e: Event, name: int, now: int, folder: nat)
    requires Leaves(e, name, now, folder)
    ensures e.name == name
  {
  }

  // ----- One increment -----

  lemma NewOpen(now: nat, k: Text, v: int, name: int, id: int)
    requires NotReserved(k)
    ensures var e := Event(name, now, id, [Prop(START_ACCUM_TIME, Decimal(now)), Prop(k, Decimal(v))]);
      Open(e) && Began(e) == now && !HasProp(e.props, ACCUMULATE_FINISHED)
  {
    hide Decimal, Stoll, Ascii;
    var props := [Prop(START_ACCUM_TIME, Decimal(now)), Prop(k, Decimal(v))];
    Keys();
    StollDecimal(now);
    FindIs(props, WithKey(START_ACCUM_TIME), 0);
    FindIs(props, WithKey(USED_SPACE), 2);
    FindIs(props, WithKey(ACCUMULATE_FINISHED), 2);
  }

  /** With the folder size known nothing overdue stays and what moves is overdue; without it nothing moves. */
  lemma IncrementTimes(s: Stats, name: int, k: Text, v: int, now: nat, labels: Labels)
    requires Accumulates(name) && NotReserved(k) && AllOpen(s.accumulated, name)
    ensures var r := Increment(s, name, k, v, now, labels);
      && AllOpen(r.accumulated, name) && r.folder == s.folder
      && (s.folder != 0 ==> NoneOverdue(r.accumulated, name, now))
      && (s.folder == 0 ==> r.events == s.events)
      && |s.events| <= |r.events| && r.events[..|s.events|] == s.events
      && AllHandedOnAt(r.events[|s.events|..], name, now, s.folder)
  {
    hide Open, Began, HandedOnAt, NumberOf, HasProp, Named, Kept, Left, NotReserved, Decimal;
    var b := BumpAll(s.accumulated, name, k, v);
    BumpAllOpen(s.accumulated, name, k, v);
    KeptTimes(b, name, now, s.folder);
    LeftTimes(b, name, now, s.folder, s.session, labels);
    var kept, l := Kept(b, name, now, s.folder), Left(b, name, now, s.folder, s.session, labels);
    NewOpen(now, k, v, name, s.session + |l|);
    assert s.events + [] == s.events;
    var e := Event(name, now, s.session + |l|, [Prop(START_ACCUM_TIME, Decimal(now)), Prop(k, Decimal(v))]);
    var r := Increment(s, name, k, v, now, labels);
    assert r.accumulated == kept || r.accumulated == kept + [e];
    assert r.events == s.events + l;
    assert r.events[|s.events|..] == l;
  }

  // ----- Runs -----

  lemma MovedToo(was: seq<Event>, es: seq<Event>, name: int, now: int, folder: nat)
    requires AllHandedOn(was, name) && |was| <= |es| && es[..|was|] == was
    requires AllHandedOnAt(es[|was|..], name, now, folder)
    ensures AllHandedOn(es, name)
  {
    hide HandedOn;
    forall i | 0 <= i < |es|
      ensures es[i].name == name ==> HandedOn(es[i])
    {
      assert if i < |was| then es[i] == was[i] else es[i] == es[|was|..][i - |was|];
    }
  }

  lemma InsertTimes(s: Stats, other: int, props: seq<Prop>, now: nat, name: int)
    requires other != name && !(other == START_SESSION && name == SERVICE_SESSION_START)
    requires AllOpen(s.accumulated, name) && AllHandedOn(s.events, name)
    ensures var r := Insert(s, other, props, now); AllOpen(r.accumulated, name) && AllHandedOn(r.events, name)
  {
    hide Open, HandedOn, HasProp;
  }

  /** In every run, from no event of the name: whatever was handed on had begun more than 24 hours
      before. After an increment with the folder size known no accumulating event began more than
      24 hours before; with the size unknown the increment hands nothing on. */
  lemma {:induction false} RunTimes(s: Stats, name: int, ops: seq<Op>, labels: Labels)
    requires Accumulates(name) && NoneNamed(s, name)
    requires forall i :: 0 <= i < |ops| ==> Allowed(name, ops[i])
    ensures var r := Run(s, name, ops, labels);
      && AllOpen(r.accumulated, name) && AllHandedOn(r.events, name)
      && (ops != [] && ops[|ops| - 1].Increased? ==>
           && (r.folder != 0 ==> NoneOverdue(r.accumulated, name, ops[|ops| - 1].now))
           && (r.folder == 0 ==> r.events == Run(s, name, ops[..|ops| - 1], labels).events))
  {
    hide Increment, Insert, Open, HandedOn, Began, NotReserved;
    if ops == [] {
    } else {
      var n := |ops| - 1;
      RunTimes(s, name, ops[..n], labels);
      var p := Run(s, name, ops[..n], labels);
      assert Allowed(name, ops[n]);
      match ops[n]
      case Increased(k, v, now) =>
        IncrementTimes(p, name, k, v, now, labels);
        var r := Run(s, name, ops, labels);
        MovedToo(p.events, r.events, name, now, p.folder);
      case Inserted(other, props, now) => InsertTimes(p, other, props, now, name);
      case FolderKnown(folder) =>
    }
  }
}
