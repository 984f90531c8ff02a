/** Type-length-value packs as bytes (core/tools/tlv.cpp). */
module Tlvs {
  import opened Options

  type Byte = n: int | 0 <= n < 256

  const U32 := 0x1_0000_0000
  const U64 := 0x1_0000_0000_0000_0000

  // ----- Integers, little-endian -----

  function Bytes(n: nat, k: nat): (b: seq<Byte>)
    ensures |b| == k
  {
    if k == 0 then [] else [n % 256] + Bytes(n / 256, k - 1)
  }

  function Number(b: seq<Byte>): nat {
    if b == [] then 0 else b[0] + 256 * Number(b[1..])
  }

  function Power(k: nat): (p: nat)
    ensures p > 0
  {
    if k == 0 then 1 else 256 * Power(k - 1)
  }

  lemma {:induction false} NumberOfBytes(n: nat, k: nat)
    requires n < Power(k)
    ensures Number(Bytes(n, k)) == n
  {
    if k == 0 {
    } else {
      NumberOfBytes(n / 256, k - 1);
      assert Bytes(n, k)[1..] == Bytes(n / 256, k - 1);
    }
  }

  lemma {:induction false} BytesOfNumber(b: seq<Byte>)
    ensures Number(b) < Power(|b|) && Bytes(Number(b), |b|) == b
  {
    if b == [] {
    } else {
      BytesOfNumber(b[1..]);
      var m := Number(b[1..]);
      assert (b[0] + 256 * m) / 256 == m && (b[0] + 256 * m) % 256 == b[0];
    }
  }

  lemma Powers()
    ensures Power(4) == U32 && Power(8) == U64
  {
    assert Power(1) == 256 && Power(2) == 0x1_0000 && Power(3) == 0x100_0000 && Power(4) == U32;
    assert Power(5) == 256 * U32 && Power(6) == 0x1_0000 * U32 && Power(7) == 0x100_0000 * U32;
  }

  // ----- Packs -----

  datatype Tlv = Tlv(kind: nat, value: seq<Byte>)

  predicate Fits(t: Tlv) { t.kind < U32 && |t.value| < U32 }

  predicate AllFit(ts: seq<Tlv>) { forall i :: 0 <= i < |ts| ==> Fits(ts[i]) }

  function Encode(t: Tlv): seq<Byte> { Bytes(t.kind, 4) + Bytes(|t.value|, 4) + t.value }

  function Pack(ts: seq<Tlv>): seq<Byte> {
    if ts == [] then [] else Encode(ts[0]) + Pack(ts[1..])
  }

  datatype Unpacked = Unpacked(items: seq<Tlv>, ok: bool)

  /** Reads items until nothing is left or the rest is too short; what was read stays. */
  function Unpack(b: seq<Byte>): Unpacked {
    if b == [] then Unpacked([], true)
    else if |b| < 8 then Unpacked([], false)
    else
      var length := Number(b[4..8]);
      if |b| - 8 < length then Unpacked([], false)
      else
        var rest := Unpack(b[8 + length..]);
        Unpacked([Tlv(Number(b[..4]), b[8..8 + length])] + rest.items, rest.ok)
  }

  /** The first item of a type. */
  function Item(ts: seq<Tlv>, kind: nat): Option<seq<Byte>> {
    if ts == [] then None
    else if ts[0].kind == kind then Some(ts[0].value)
    else Item(ts[1..], kind)
  }

  lemma EncodeParts(t: Tlv, rest: seq<Byte>)
    requires Fits(t)
    ensures var b, n := Encode(t) + rest, |t.value|;
      && |b| >= 8 + n && Number(b[..4]) == t.kind && Number(b[4..8]) == n
      && b[8..8 + n] == t.value && b[8 + n..] == rest
  {
    var b, n := Encode(t) + rest, |t.value|;
    Powers();
    NumberOfBytes(t.kind, 4);
    NumberOfBytes(n, 4);
    hide Number, Bytes;
    assert b[..4] == Bytes(t.kind, 4) && b[4..8] == Bytes(n, 4);
    assert b[8..8 + n] == t.value && b[8 + n..] == rest;
  }

  /** Unpacking what was packed gives the items back. */
  lemma {:induction false} UnpackPack(ts: seq<Tlv>)
    requires AllFit(ts)
    ensures Unpack(Pack(ts)) == Unpacked(ts, true)
  {
    hide Number, Encode;
    if ts == [] {
    } else {
      EncodeParts(ts[0], Pack(ts[1..]));
      UnpackPack(ts[1..]);
      assert Pack(ts) != [];
      assert [Tlv(ts[0].kind, ts[0].value)] + ts[1..] == ts;
    }
  }

  lemma EncodeRead(b: seq<Byte>, length: nat)
    requires |b| >= 8 + length && Number(b[4..8]) == length
    ensures var t := Tlv(Number(b[..4]), b[8..8 + length]);
      Fits(t) && Encode(t) + b[8 + length..] == b
  {
    Powers();
    BytesOfNumber(b[..4]);
    BytesOfNumber(b[4..8]);
    hide Number, Bytes, Power;
    assert b == b[..4] + b[4..8] + b[8..8 + length] + b[8 + length..];
  }

  lemma PackFirst(t: Tlv, ts: seq<Tlv>)
    ensures Pack([t] + ts) == Encode(t) + Pack(ts)
  {
    hide Encode;
    assert ([t] + ts)[1..] == ts;
  }

  /** And bytes that unpack without failure are the packing of the items read, so a
      stream is accepted exactly when it is the packing of some items. */
  lemma {:induction false} PackUnpack(b: seq<Byte>)
    requires Unpack(b).ok
    ensures AllFit(Unpack(b).items) && Pack(Unpack(b).items) == b
  {
    hide Number, Encode, Fits;
    if b == [] {
    } else {
      var length := Number(b[4..8]);
      var rest := Unpack(b[8 + length..]).items;
      PackUnpack(b[8 + length..]);
      EncodeRead(b, length);
      PackFirst(Tlv(Number(b[..4]), b[8..8 + length]), rest);
    }
  }

  // ----- Where everything stands -----

  lemma {:induction false} PackConcat(a: seq<Tlv>, b: seq<Tlv>)
    ensures Pack(a + b) == Pack(a) + Pack(b)
  {
    hide Encode;
    if a == [] {
      assert a + b == b;
    } else {
      PackConcat(a[1..], b);
      assert (a + b)[1..] == a[1..] + b;
    }
  }

  /** Four bytes of a number, the lowest first. */
  predicate LowestFirst(b: seq<Byte>, n: nat) {
    && |b| == 4 && b[0] == n % 256 && b[1] == n / 0x100 % 256 && b[2] == n / 0x1_0000 % 256
    && b[3] == n / 0x100_0000 % 256
  }

  lemma FourBytes(n: nat)
    ensures LowestFirst(Bytes(n, 4), n)
  {
    var a := n / 256;
    var b := a / 256;
    assert Bytes(n, 4) == [n % 256] + Bytes(a, 3) && Bytes(a, 3) == [a % 256] + Bytes(b, 2);
    assert Bytes(b, 2) == [b % 256] + Bytes(b / 256, 1);
    assert Bytes(b / 256, 1) == [b / 256 % 256] + Bytes(b / 256 / 256, 0);
    assert b == n / 0x1_0000 && b / 256 == n / 0x100_0000;
  }

  lemma PackOne(t: Tlv)
    ensures Pack([t]) == Bytes(t.kind, 4) + Bytes(|t.value|, 4) + t.value
  {
    hide Bytes;
    PackFirst(t, []);
    assert [t] + [] == [t] && Encode(t) + Pack([]) == Encode(t);
  }

  /** Behind all earlier items stand four bytes of an item's type, four of its length, and its value. */
  lemma PackLayout(before: seq<Tlv>, t: Tlv, after: seq<Tlv>)
    ensures var b, n := Pack(before + [t] + after), |Pack(before)|;
      && |b| >= n + 8 + |t.value| && b[..n] == Pack(before)
      && LowestFirst(b[n..n + 4], t.kind) && LowestFirst(b[n + 4..n + 8], |t.value|)
      && b[n + 8..n + 8 + |t.value|] == t.value
  {
    hide Bytes, LowestFirst;
    PackConcat(before + [t], after);
    PackConcat(before, [t]);
    PackOne(t);
    FourBytes(t.kind);
    FourBytes(|t.value|);
    hide Pack;
    Slices(Pack(before), Bytes(t.kind, 4), Bytes(|t.value|, 4), t.value, Pack(after));
  }

  lemma Slices(a: seq<Byte>, x: seq<Byte>, y: seq<Byte>, v: seq<Byte>, z: seq<Byte>)
    requires |x| == 4 && |y| == 4
    ensures var b, n := a + (x + y + v) + z, |a|;
      && b[..n] == a && b[n..n + 4] == x && b[n + 4..n + 8] == y && b[n + 8..n + 8 + |v|] == v
  {
  }

  /** The item found is the first one of its type, and none is found only if there is none. */
  lemma {:induction false} ItemIsFirst(ts: seq<Tlv>, kind: nat)
    ensures var r := Item(ts, kind);
      if r.None? then forall i :: 0 <= i < |ts| ==> ts[i].kind != kind
      else exists i :: 0 <= i < |ts| && ts[i] == Tlv(kind, r.value) && forall j :: 0 <= j < i ==> ts[j].kind != kind
  {
    if ts == [] {
    } else if ts[0].kind == kind {
      assert ts[0] == Tlv(kind, Item(ts, kind).value);
    } else {
      ItemIsFirst(ts[1..], kind);
      var r := Item(ts, kind);
      if r.Some? {
        var i :| 0 <= i < |ts[1..]| && ts[1..][i] == Tlv(kind, r.value)
                 && forall j :: 0 <= j < i ==> ts[1..][j].kind != kind;
        assert ts[i + 1] == Tlv(kind, r.value);
        forall j | 0 <= j < i + 1
          ensures ts[j].kind != kind
        {
          assert j > 0 ==> ts[j] == ts[1..][j - 1];
        }
      }
    }
  }
}
