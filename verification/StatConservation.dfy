/** Whole runs of incrementing: nothing that was counted is lost or counted twice
    (core/statistics.cpp). */
module StatConservation {
  import opened Searching
  import opened Tlvs
  import opened StatEvents
  import opened StatIncrements

  datatype Op =
    | Increased(key: Text, v: int, now: nat)
    | Inserted(name: int, props: seq<Prop>, now: nat)
    | FolderKnown(folder: nat)

  /** One accumulating name is followed; other events come and go. */
  function Apply(s: Stats, name: int, op: Op, labels: Labels): Stats {
    match op
    case Increased(key, v, now) => Increment(s, name, key, v, now, labels)
    case Inserted(other, props, now) => Insert(s, other, props, now)
    case FolderKnown(folder) => s.(folder := folder)
  }

  predicate Allowed(name: int, op: Op) {
    match op
    case Increased(key, _, _) => NotReserved(key)
    case Inserted(other, _, _) => other != name && !(other == START_SESSION && name == SERVICE_SESSION_START)
    case FolderKnown(_) => true
  }

  function Run(s: Stats, name: int, ops: seq<Op>, labels: Labels): Stats {
    if ops == [] then s else Apply(Run(s, name, ops[..|ops| - 1], labels), name, ops[|ops| - 1], labels)
  }

  /** The sum of all increments of a property. */
  function Increments(ops: seq<Op>, key: Text): int {
    if ops == [] then 0
    else
      var last := ops[|ops| - 1];
      Increments(ops[..|ops| - 1], key) + if last.Increased? && last.key == key then last.v else 0
  }

  /** Each event of the name holds a number from 0 to `limit`. */
  predicate AllSmall(s: Stats, name: int, key: Text, limit: int) {
    Small(s.events, name, key, limit) && Small(s.accumulated, name, key, limit)
  }

  // ----- One increment -----

  lemma NewNumber(now: nat, k: Text, v: int, key: Text)
    requires k != START_ACCUM_TIME && k != ACCUMULATE_FINISHED && key != START_ACCUM_TIME
    ensures var props := [Prop(START_ACCUM_TIME, Decimal(now)), Prop(k, Decimal(v))];
      && NumberOf(props, key) == (if k == key then v else 0) && !HasProp(props, ACCUMULATE_FINISHED)
  {
    hide Decimal, Stoll, Ascii;
    var props := [Prop(START_ACCUM_TIME, Decimal(now)), Prop(k, Decimal(v))];
    StollDecimal(v);
    FindIs(props, WithKey(key), if k == key then 1 else 2);
    FindNothing();
    assert START_ACCUM_TIME != ACCUMULATE_FINISHED;
    FindIs(props, WithKey(ACCUMULATE_FINISHED), 2);
  }

  lemma ReservedTwo(k: Text)
    requires NotReserved(k)
    ensures k != START_ACCUM_TIME && k != ACCUMULATE_FINISHED
  {
  }

  lemma FindNothing()
    ensures |START_ACCUM_TIME| == 16 && |ACCUMULATE_FINISHED| == 19
  {
  }

  lemma SumApart(es: seq<Event>, e: Event, name: int, key: Text)
    requires e.name != name
    ensures Sum(es + [e], name, key) == Sum(es, name, key) && Named(es + [e], name) == Named(es, name)
  {
    SumSnoc(es, e, name, key);
  }

  /** An increment leaves at most one accumulating event of the name, and the total
      changes by exactly the increment, modulo 2^32. */
  lemma IncrementConserves(s: Stats, name: int, k: Text, v: int, now: nat, labels: Labels, key: Text)
    requires Accumulates(name) && NotReserved(k) && NotReserved(key) && Named(s.accumulated, name) <= 1
    ensures var r, d := Increment(s, name, k, v, now, labels), if k == key then v else 0;
      Named(r.accumulated, name) <= 1 && (Total(r, name, key) - Total(s, name, key) - d) % U32 == 0
  {
    hide Sum, Named, NumberOf, Decimal, NotReserved, Kept, Left, BumpAll, HasProp;
    var b := BumpAll(s.accumulated, name, k, v);
    var kept, l := Kept(b, name, now, s.folder), Left(b, name, now, s.folder, s.session, labels);
    BumpSum(s.accumulated, name, k, v, key);
    SplitSum(b, name, now, s.folder, s.session, labels, key);
    SumConcat(s.events, l, name, key);
    ReservedTwo(k);
    ReservedTwo(key);
    NewNumber(now, k, v, key);
    var props := [Prop(START_ACCUM_TIME, Decimal(now)), Prop(k, Decimal(v))];
    SumSnoc(kept, Event(name, now, s.session + |l|, props), name, key);
  }

  /** With numbers that stay below 2^31 the total changes by exactly the increment. */
  lemma IncrementExact(s: Stats, name: int, k: Text, v: int, now: nat, labels: Labels, key: Text, m: nat)
    requires Accumulates(name) && NotReserved(k) && NotReserved(key) && Named(s.accumulated, name) <= 1
    requires AllSmall(s, name, key, m) && (k == key ==> v >= 0 && m + v < 0x8000_0000)
    ensures var r, d := Increment(s, name, k, v, now, labels), if k == key then v else 0;
      Total(r, name, key) == Total(s, name, key) + d && AllSmall(r, name, key, m + d)
  {
    hide Sum, Named, NumberOf, Decimal, NotReserved, Kept, Left, BumpAll, HasProp, Small;
    var b := BumpAll(s.accumulated, name, k, v);
    var kept, l := Kept(b, name, now, s.folder), Left(b, name, now, s.folder, s.session, labels);
    var d := if k == key then v else 0;
    BumpSum(s.accumulated, name, k, v, key);
    BumpSumExact(s.accumulated, name, k, v, key, m);
    BumpSmall(s.accumulated, name, k, v, key, m);
    SplitSum(b, name, now, s.folder, s.session, labels, key);
    SplitEvents(b, name, now, s.folder, s.session, labels, key, m + d);
    SumConcat(s.events, l, name, key);
    ReservedTwo(k);
    ReservedTwo(key);
    NewNumber(now, k, v, key);
    var props := [Prop(START_ACCUM_TIME, Decimal(now)), Prop(k, Decimal(v))];
    var e := Event(name, now, s.session + |l|, props);
    SumSnoc(kept, e, name, key);
    SmallConcat(s.events, l, name, key, m, m + d);
    SmallConcat(kept, [e], name, key, m + d, m + d);
  }

  lemma SmallConcat(a: seq<Event>, b: seq<Event>, name: int, key: Text, m: int, n: int)
    requires m <= n && Small(a, name, key, m)
    ensures Small(b, name, key, n) ==> Small(a + b, name, key, n)
    ensures |b| == 1 && (b[0].name == name ==> 0 <= NumberOf(b[0].props, key) <= n) ==> Small(a + b, name, key, n)
  {
    hide NumberOf;
  }

  // ----- Other steps -----

  /** Inserting an event of another name changes nothing that is counted. */
  lemma InsertApart(s: Stats, other: int, props: seq<Prop>, now: nat, name: int, key: Text, m: int)
    requires other != name && Accumulates(name)
    ensures var r := Insert(s, other, props, now);
      && Total(r, name, key) == Total(s, name, key) && Named(r.accumulated, name) == Named(s.accumulated, name)
      && (AllSmall(s, name, key, m) ==> AllSmall(r, name, key, m))
  {
    hide Sum, Named, NumberOf, HasProp;
    var t := if other == START_SESSION
      then InsertEvent(s.(session := 0), SERVICE_SESSION_START, props, now, -1) else s;
    InsertOneApart(s.(session := 0), SERVICE_SESSION_START, props, now, name, key, m);
    InsertOneApart(t, other, props, now, name, key, m);
  }

  lemma InsertOneApart(s: Stats, other: int, props: seq<Prop>, now: nat, name: int, key: Text, m: int)
    requires other != name
    ensures var r := InsertEvent(s, other, props, now, -1);
      && Total(r, name, key) == Total(s, name, key) && Named(r.accumulated, name) == Named(s.accumulated, name)
      && (AllSmall(s, name, key, m) ==> AllSmall(r, name, key, m))
  {
    hide Sum, Named, NumberOf, HasProp;
    var e := Event(other, now, s.session, props);
    SumApart(s.events, e, name, key);
    SumApart(s.accumulated, e, name, key);
  }

  // ----- Runs -----

  predicate NoneNamed(s: Stats, name: int) {
    && (forall i :: 0 <= i < |s.events| ==> s.events[i].name != name)
    && (forall i :: 0 <= i < |s.accumulated| ==> s.accumulated[i].name != name)
  }

  lemma {:induction false} NothingCounted(es: seq<Event>, name: int, key: Text)
    requires forall i :: 0 <= i < |es| ==> es[i].name != name
    ensures Sum(es, name, key) == 0 && Named(es, name) == 0
  {
    if es == [] {
    } else {
      NothingCounted(es[..|es| - 1], name, key);
    }
  }

  /** Starting without events of an accumulating name, at most one event of it ever
      accumulates, and its finished and accumulating events together hold the sum of all
      increments, modulo 2^32. */
  lemma {:induction false} RunConserves(s: Stats, name: int, ops: seq<Op>, labels: Labels, key: Text)
    requires Accumulates(name) && NotReserved(key) && NoneNamed(s, name)
    requires forall i :: 0 <= i < |ops| ==> Allowed(name, ops[i])
    ensures var r := Run(s, name, ops, labels);
      Named(r.accumulated, name) <= 1 && (Total(r, name, key) - Increments(ops, key)) % U32 == 0
  {
    hide Increment, Insert, NotReserved, Sum, Named;
    if ops == [] {
      NothingCounted(s.events, name, key);
      NothingCounted(s.accumulated, name, key);
    } else {
      var n := |ops| - 1;
      RunConserves(s, name, ops[..n], labels, key);
      var p := Run(s, name, ops[..n], labels);
      assert Allowed(name, ops[n]);
      match ops[n]
      case Increased(k, v, now) => IncrementConserves(p, name, k, v, now, labels, key);
      case Inserted(other, props, now) => InsertApart(p, other, props, now, name, key, 0);
      case FolderKnown(folder) =>
    }
  }

  predicate NonNegative(ops: seq<Op>, key: Text) {
    forall i :: 0 <= i < |ops| && ops[i].Increased? && ops[i].key == key ==> ops[i].v >= 0
  }

  /** When no increment of the property is negative and all of them together stay below
      2^31, the events hold exactly their sum. */
  lemma {:induction false} RunConservesExactly(s: Stats, name: int, ops: seq<Op>, labels: Labels, key: Text)
    requires Accumulates(name) && NotReserved(key) && NoneNamed(s, name)
    requires forall i :: 0 <= i < |ops| ==> Allowed(name, ops[i])
    requires NonNegative(ops, key) && Increments(ops, key) < 0x8000_0000
    ensures var r := Run(s, name, ops, labels);
      && Increments(ops, key) >= 0 && Total(r, name, key) == Increments(ops, key)
      && AllSmall(r, name, key, Increments(ops, key))
  {
    hide Increment, Insert, NotReserved, Sum, Named;
    if ops == [] {
      NothingCounted(s.events, name, key);
      NothingCounted(s.accumulated, name, key);
    } else {
      var n := |ops| - 1;
      RunConservesExactly(s, name, ops[..n], labels, key);
      RunConserves(s, name, ops[..n], labels, key);
      var p := Run(s, name, ops[..n], labels);
      assert Allowed(name, ops[n]);
      match ops[n]
      case Increased(k, v, now) => IncrementExact(p, name, k, v, now, labels, key, Increments(ops[..n], key));
      case Inserted(other, props, now) => InsertApart(p, other, props, now, name, key, Increments(ops[..n], key));
      case FolderKnown(folder) =>
    }
  }
}
