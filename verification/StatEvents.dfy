/** Statistics events, their numeric properties and how they accumulate
    (core/statistics.cpp). */
module StatEvents {
  import opened Options
  import opened Searching
  import opened Tlvs

  type Text = seq<Byte>

  function Ascii(s: string): (t: Text)
    ensures |t| == |s|
  {
    seq(|s|, i requires 0 <= i < |s| => s[i] as int % 256)
  }

  const START_ACCUM_TIME := Ascii("start_accum_time")
  const ACCUMULATE_FINISHED := Ascii("accumulate_finished")

  const SERVICE_SESSION_START := 1001
  const START_SESSION := 1002
  const SEND_USED_TRAFFIC_SIZE := 53000

  /** 24 hours. */
  const ACCUMULATION_TIME := 86_400_000

  datatype Prop = Prop(key: Text, value: Text)

  /** Times are in milliseconds. */
  datatype Event = Event(name: int, time: int, id: int, props: seq<Prop>)

  predicate Accumulates(name: int) { name == SEND_USED_TRAFFIC_SIZE }

  // ----- Numbers as text -----

  function Digits(n: nat): (t: Text)
    ensures t != []
  {
    if n < 10 then [48 + n] else Digits(n / 10) + [48 + n % 10]
  }

  /** `std::to_string`. */
  function Decimal(n: int): Text { if n < 0 then [45] + Digits(-n) else Digits(n) }

  predicate IsDigit(b: Byte) { 48 <= b <= 57 }

  /** The number that the digits at the front spell, after those that spelled `n`. */
  function ReadDigits(t: Text, n: nat): nat {
    if t == [] || !IsDigit(t[0]) then n else ReadDigits(t[1..], 10 * n + (t[0] - 48))
  }

  /** `std::stoll` without leading blanks; None when it throws for want of digits. */
  function Stoll(t: Text): Option<int> {
    if t == [] then None
    else
      var u := if t[0] == 45 || t[0] == 43 then t[1..] else t;
      if u == [] || !IsDigit(u[0]) then None
      else
        var n: int := ReadDigits(u, 0);
        Some(if t[0] == 45 then -n else n)
  }

  lemma {:induction false} ReadConcat(a: Text, b: Text, n: nat)
    requires forall i :: 0 <= i < |a| ==> IsDigit(a[i])
    ensures ReadDigits(a + b, n) == ReadDigits(b, ReadDigits(a, n))
    decreases |a|
  {
    if a == [] {
      assert a + b == b;
    } else {
      assert (a + b)[1..] == a[1..] + b;
      ReadConcat(a[1..], b, 10 * n + (a[0] - 48));
    }
  }

  lemma {:induction false} ReadBack(n: nat)
    ensures forall i :: 0 <= i < |Digits(n)| ==> IsDigit(Digits(n)[i])
    ensures ReadDigits(Digits(n), 0) == n
  {
    if n >= 10 {
      ReadBack(n / 10);
      ReadConcat(Digits(n / 10), [48 + n % 10], 0);
      assert ReadDigits([48 + n % 10], n / 10) == 10 * (n / 10) + n % 10;
    }
  }

  /** A number written as text reads back as itself. */
  lemma StollDecimal(n: int)
    ensures Stoll(Decimal(n)) == Some(n)
  {
    hide ReadDigits, Digits;
    if n < 0 {
      ReadBack(-n);
      assert Decimal(n)[1..] == Digits(-n);
    } else {
      ReadBack(n);
    }
  }

  /** The value as a 32-bit integer. */
  function Wrap(n: int): (r: int)
    ensures -0x8000_0000 <= r < 0x8000_0000 && (r - n) % U32 == 0
    ensures -0x8000_0000 <= n < 0x8000_0000 ==> r == n
  {
    (n + 0x8000_0000) % U32 - 0x8000_0000
  }

  // ----- Properties -----

  function WithKey(key: Text): Prop -> bool { (p: Prop) => p.key == key }

  predicate HasProp(props: seq<Prop>, key: Text) { Find(props, WithKey(key)) < |props| }

  function NumberOf(props: seq<Prop>, key: Text): int {
    var k := Find(props, WithKey(key));
    if k < |props| && Stoll(props[k].value).Some? then Stoll(props[k].value).value else 0
  }

  /** `increment_prop`: a 32-bit sum, kept as text. */
  function IncrementProp(props: seq<Prop>, key: Text, v: int): seq<Prop> {
    var k := Find(props, WithKey(key));
    if k == |props| then props + [Prop(key, Decimal(v))]
    else props[k := Prop(key, Decimal(Wrap(Wrap(NumberOf(props, key)) + v)))]
  }

  lemma FindAppend(props: seq<Prop>, more: seq<Prop>, key: Text)
    requires HasProp(props, key)
    ensures Find(props + more, WithKey(key)) == Find(props, WithKey(key))
    ensures NumberOf(props + more, key) == NumberOf(props, key)
  {
    hide Stoll;
    FindIs(props + more, WithKey(key), Find(props, WithKey(key)));
  }

  /** Incrementing changes the number by the increment, modulo 2^32; other properties stay. */
  lemma Incremented(props: seq<Prop>, key: Text, v: int, other: Text)
    ensures var r := IncrementProp(props, key, v);
      && HasProp(r, key) && (NumberOf(r, key) - NumberOf(props, key) - v) % U32 == 0
      && (0 <= NumberOf(props, key) && -0x8000_0000 <= NumberOf(props, key) + v < 0x8000_0000 && v >= 0 ==>
           NumberOf(r, key) == NumberOf(props, key) + v)
      && (other != key ==>
           (HasProp(r, other) <==> HasProp(props, other)) && NumberOf(r, other) == NumberOf(props, other))
  {
    hide Stoll, Decimal, Find, Wrap;
    var r, k := IncrementProp(props, key, v), Find(props, WithKey(key));
    var n := if k == |props| then v else Wrap(Wrap(NumberOf(props, key)) + v);
    StollDecimal(n);
    FindIs(r, WithKey(key), k);
    SumsAgree(NumberOf(props, key), v);
    if other != key {
      var m := Find(props, WithKey(other));
      if m < |props| {
        FindIs(r, WithKey(other), m);
      } else {
        FindIs(r, WithKey(other), |r|);
      }
    }
  }

  lemma SumsAgree(n: int, v: int)
    ensures (Wrap(Wrap(n) + v) - n - v) % U32 == 0
    ensures -0x8000_0000 <= n < 0x8000_0000 && -0x8000_0000 <= n + v < 0x8000_0000 ==> Wrap(Wrap(n) + v) == n + v
  {
    var a, b := Wrap(n), Wrap(Wrap(n) + v);
    Congruent(b - (a + v), a - n);
  }

  lemma Congruent(a: int, b: int)
    requires a % U32 == 0 && b % U32 == 0
    ensures (a + b) % U32 == 0
  {
  }
}
