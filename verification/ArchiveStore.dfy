/** The ordered map of headers as a value, and what its blocks on disk mean
    (core/archive/archive_index.cpp). */
module ArchiveStore {
  import opened MessageHeaders

  // ----- An ordered map from id to header, as its values in key order -----

  predicate Sorted(s: seq<Header>) { forall i, j :: 0 <= i < j < |s| ==> s[i].id < s[j].id }

  predicate IndexOk(s: seq<Header>) { Sorted(s) && forall i :: 0 <= i < |s| ==> HeaderOk(s[i]) }

  function Ids(s: seq<Header>): set<int> { set i | 0 <= i < |s| :: s[i].id }

  /** Position of the first header with an id not below `id`. */
  function LowerBound(s: seq<Header>, id: int): (k: nat)
    ensures k <= |s| && (forall i :: 0 <= i < k ==> s[i].id < id)
    ensures k < |s| ==> s[k].id >= id
    ensures Sorted(s) ==> forall i :: k <= i < |s| ==> s[i].id >= id
  {
    if s == [] || s[0].id >= id then 0
    else
      assert Sorted(s) ==> Sorted(s[1..]);
      1 + LowerBound(s[1..], id)
  }

  predicate Has(s: seq<Header>, id: int) {
    var k := LowerBound(s, id);
    k < |s| && s[k].id == id
  }

  // ----- Inserting -----

  function InsertOne(s: seq<Header>, h: Header): seq<Header> {
    var k := LowerBound(s, h.id);
    if k < |s| && s[k].id == h.id then s[k := Merge(s[k], h)] else s[..k] + [h] + s[k..]
  }

  /** What `insert_header` leaves in the caller's header: the merged one, unless
      that is deleted or modified. */
  function Echo(s: seq<Header>, h: Header): Header {
    if Has(s, h.id) then
      var m := Merge(s[LowerBound(s, h.id)], h);
      if !IsDeleted(m) && !IsModified(m) then m else h
    else h
  }

  function InsertAll(s: seq<Header>, hs: seq<Header>): seq<Header> {
    if hs == [] then s else InsertOne(InsertAll(s, hs[..|hs| - 1]), hs[|hs| - 1])
  }

  function Echoes(s: seq<Header>, hs: seq<Header>): (es: seq<Header>)
    ensures |es| == |hs|
  {
    if hs == [] then []
    else
      var n := |hs| - 1;
      Echoes(s, hs[..n]) + [Echo(InsertAll(s, hs[..n]), hs[n])]
  }

  predicate AllOk(hs: seq<Header>) { forall i :: 0 <= i < |hs| ==> HeaderOk(hs[i]) }

  lemma InsertOneOk(s: seq<Header>, h: Header)
    requires IndexOk(s) && HeaderOk(h)
    ensures IndexOk(InsertOne(s, h))
    ensures forall id :: id in Ids(InsertOne(s, h)) <==> id in Ids(s) || id == h.id
  {
    hide HeaderOk, Merge;
    var k := LowerBound(s, h.id);
    if k < |s| && s[k].id == h.id {
      MergeOk(s[k], h);
      MergeId(s[k], h);
      Replaced(s, k, Merge(s[k], h));
    } else {
      Inserted(s, k, h);
    }
  }

  lemma MergeId(h: Header, r: Header)
    ensures Merge(h, r).id == h.id
  {
  }

  lemma Replaced(s: seq<Header>, k: nat, m: Header)
    requires IndexOk(s) && k < |s| && m.id == s[k].id && HeaderOk(m)
    ensures IndexOk(s[k := m]) && Ids(s[k := m]) == Ids(s)
  {
    hide HeaderOk;
    var r := s[k := m];
    assert forall i :: 0 <= i < |s| ==> r[i].id == s[i].id;
  }

  lemma Inserted(s: seq<Header>, k: nat, h: Header)
    requires IndexOk(s) && k <= |s| && HeaderOk(h)
    requires (forall i :: 0 <= i < k ==> s[i].id < h.id) && (forall i :: k <= i < |s| ==> s[i].id > h.id)
    ensures IndexOk(s[..k] + [h] + s[k..])
    ensures forall id :: id in Ids(s[..k] + [h] + s[k..]) <==> id in Ids(s) || id == h.id
  {
    hide HeaderOk;
    var r := s[..k] + [h] + s[k..];
    assert r[k] == h;
    assert forall i :: 0 <= i < k ==> r[i] == s[i];
    assert forall i :: k <= i < |s| ==> r[i + 1] == s[i];
    assert forall i :: k < i < |r| ==> r[i] == s[i - 1];
  }

  /** Inserting keeps the order and never drops an id. */
  lemma {:induction false} InsertAllOk(s: seq<Header>, hs: seq<Header>)
    requires IndexOk(s) && AllOk(hs)
    ensures IndexOk(InsertAll(s, hs))
    ensures forall id :: id in Ids(InsertAll(s, hs)) <==> id in Ids(s) || id in Ids(hs)
  {
    hide InsertOne, HeaderOk;
    if hs == [] {
    } else {
      var n := |hs| - 1;
      InsertAllOk(s, hs[..n]);
      InsertOneOk(InsertAll(s, hs[..n]), hs[n]);
      assert forall id :: id in Ids(hs) <==> id in Ids(hs[..n]) || id == hs[n].id by {
        assert forall i :: 0 <= i < n ==> hs[..n][i] == hs[i];
      }
    }
  }

  lemma {:induction false} InsertAllConcat(s: seq<Header>, a: seq<Header>, b: seq<Header>)
    ensures InsertAll(s, a + b) == InsertAll(InsertAll(s, a), b)
  {
    hide InsertOne;
    if b == [] {
      assert a + b == a;
    } else {
      var n := |b| - 1;
      assert (a + b)[..|a| + n] == a + b[..n];
      InsertAllConcat(s, a, b[..n]);
    }
  }

  // ----- Blocks -----

  /** A block of records; reading a damaged one fails after the records it still holds. */
  datatype Block = Block(records: seq<Header>, damaged: bool)

  function RecordsOf(h: Header): seq<Header> {
    [Record(h)] + if IsModified(h) then Records(h.mods) else []
  }

  function AllRecords(s: seq<Header>): seq<Header> {
    if s == [] then [] else AllRecords(s[..|s| - 1]) + RecordsOf(s[|s| - 1])
  }

  predicate Sound(blocks: seq<Block>) { forall i :: 0 <= i < |blocks| ==> !blocks[i].damaged }

  lemma AllRecordsNone()
    ensures AllRecords([]) == [] && ReadRecords([]) == []
  {
  }

  lemma AllRecordsSnoc(s: seq<Header>, i: nat)
    requires i < |s|
    ensures s[..0] == [] && AllRecords(s[..i + 1]) == AllRecords(s[..i]) + RecordsOf(s[i])
  {
    assert s[..i + 1][..i] == s[..i];
  }

  /** The records read from the blocks: up to the first damaged one. */
  function ReadRecords(blocks: seq<Block>): seq<Header> {
    if blocks == [] then []
    else if blocks[0].damaged then blocks[0].records
    else blocks[0].records + ReadRecords(blocks[1..])
  }

  lemma {:induction false} ReadRecordsSnoc(blocks: seq<Block>, b: Block)
    requires Sound(blocks)
    ensures ReadRecords(blocks + [b]) == ReadRecords(blocks) + b.records
  {
    var all := blocks + [b];
    if blocks == [] {
      assert all[1..] == [];
    } else {
      assert all[1..] == blocks[1..] + [b];
      ReadRecordsSnoc(blocks[1..], b);
    }
  }

  /** A damaged block still yields the records before the damage, and ends the reading. */
  lemma {:induction false} NothingBehindDamage(a: seq<Block>, b: Block, rest: seq<Block>)
    requires Sound(a) && b.damaged
    ensures ReadRecords(a + [b] + rest) == ReadRecords(a) + b.records
    ensures a != [] ==> ReadRecords(a) == a[0].records + ReadRecords(a[1..])
  {
    var all := a + [b] + rest;
    if a == [] {
      assert all[0] == b;
    } else {
      assert all[1..] == a[1..] + [b] + rest;
      NothingBehindDamage(a[1..], b, rest);
    }
  }

  // ----- Saving everything and loading it again -----

  /** Modification records merge one after the other into the header at the end. */
  lemma {:induction false} ReplayAtEnd(s: seq<Header>, h: Header, ms: seq<Header>)
    requires Sorted(s + [h]) && forall i :: 0 <= i < |ms| ==> ms[i].id == h.id
    ensures InsertAll(s + [h], ms) == s + [Replay(h, ms)] && Replay(h, ms).id == h.id
  {
    if ms == [] {
    } else {
      var n := |ms| - 1;
      ReplayAtEnd(s, h, ms[..n]);
      EndsHigher(s, h);
      AtEnd(s, Replay(h, ms[..n]), h.id);
    }
  }

  lemma EndsHigher(s: seq<Header>, h: Header)
    requires Sorted(s + [h])
    ensures forall i :: 0 <= i < |s| ==> s[i].id < h.id
  {
    var t := s + [h];
    assert t[|s|] == h && forall i :: 0 <= i < |s| ==> t[i] == s[i];
  }

  lemma AtEnd(s: seq<Header>, h: Header, id: int)
    requires h.id == id && forall i :: 0 <= i < |s| ==> s[i].id < id
    ensures LowerBound(s + [h], id) == |s|
    ensures LowerBound(s, id) == |s|
  {
    var t := s + [h];
    var k := LowerBound(t, id);
    assert t[|s|] == h && forall i :: 0 <= i < |s| ==> t[i] == s[i];
  }

  lemma LoadOne(s: seq<Header>, h: Header)
    requires Sorted(s + [h]) && HeaderOk(h)
    ensures InsertAll(s, RecordsOf(h)) == s + [Reloaded(h)]
  {
    EndsHigher(s, h);
    AtEnd(s, h, h.id);
    var r := Record(h);
    assert InsertAll(s, []) == s;
    assert [r][..0] == [];
    assert InsertAll(s, [r]) == s + [r];
    if IsModified(h) {
      assert forall i :: 0 <= i <= |s| ==> (s + [r])[i].id == (s + [h])[i].id;
      ReplayAtEnd(s, r, Records(h.mods));
      InsertAllConcat(s, [r], Records(h.mods));
    } else {
      assert RecordsOf(h) == [r];
    }
  }

  function ReloadedAll(s: seq<Header>): (r: seq<Header>)
    ensures |r| == |s| && forall i :: 0 <= i < |s| ==> r[i] == Reloaded(s[i])
  {
    seq(|s|, i requires 0 <= i < |s| => Reloaded(s[i]))
  }

  lemma {:induction false} LoadAll(s: seq<Header>)
    requires IndexOk(s)
    ensures InsertAll([], AllRecords(s)) == ReloadedAll(s)
  {
    hide Reloaded, InsertOne, RecordsOf, HeaderOk;
    if s == [] {
    } else {
      var n := |s| - 1;
      var u := s[..n];
      LoadAll(u);
      InsertAllConcat([], AllRecords(u), RecordsOf(s[n]));
      ReloadedIds(s);
      assert Sorted(ReloadedAll(u) + [s[n]]);
      LoadOne(ReloadedAll(u), s[n]);
    }
  }

  lemma ReloadedIds(s: seq<Header>)
    requires AllOk(s)
    ensures forall i :: 0 <= i < |s| ==> Reloaded(s[i]).id == s[i].id
  {
    forall i | 0 <= i < |s|
      ensures Reloaded(s[i]).id == s[i].id
    {
      RecordsModify(s[i].mods);
      ReplayFields(Record(s[i]), Records(s[i].mods));
    }
  }

  /** Saving an index and loading it into an empty one rebuilds it exactly when
      every header is stable, however the records are cut into blocks. */
  lemma {:induction false} SaveLoadRoundTrip(s: seq<Header>, blocks: seq<Block>)
    requires IndexOk(s) && Sound(blocks) && ReadRecords(blocks) == AllRecords(s)
    ensures InsertAll([], ReadRecords(blocks)) == s <==> forall i :: 0 <= i < |s| ==> Stable(s[i])
  {
    hide Stable, HeaderOk;
    LoadAll(s);
    forall i | 0 <= i < |s|
      ensures Reloaded(s[i]) == s[i] <==> Stable(s[i])
    {
      ReloadedIffStable(s[i]);
    }
    if forall i :: 0 <= i < |s| ==> Stable(s[i]) {
      assert ReloadedAll(s) == s;
    }
  }

  // ----- Appending what an update echoed -----

  lemma EchoInserted(s: seq<Header>, h: Header)
    requires h.mods == []
    ensures InsertOne(s, Record(Echo(s, h))) == InsertOne(s, h)
  {
    if Has(s, h.id) {
      var e := s[LowerBound(s, h.id)];
      if !IsModified(Merge(e, h)) {
        MergeIdempotent(e, h);
      }
    }
  }

  /** The records that an update appends to the file reload to the same index as
      the headers that arrived, even though merged headers were written. */
  lemma {:induction false} EchoesInserted(s: seq<Header>, hs: seq<Header>)
    requires forall i :: 0 <= i < |hs| ==> hs[i].mods == []
    ensures InsertAll(s, Records(Echoes(s, hs))) == InsertAll(s, hs)
  {
    hide InsertOne, Echo;
    if hs == [] {
    } else {
      var n := |hs| - 1;
      EchoesInserted(s, hs[..n]);
      EchoInserted(InsertAll(s, hs[..n]), hs[n]);
      assert Records(Echoes(s, hs))[..n] == Records(Echoes(s, hs[..n]));
    }
  }
}
