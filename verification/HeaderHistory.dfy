/** What an index holds of a message after any headers of it have arrived, told from the
    headers alone (core/archive/history_message.cpp, core/archive/archive_index.cpp). */
module HeaderHistories {
  import opened Options
  import opened PatchVersions
  import opened MessageHeaders
  import opened ArchiveStore

  // ----- One message -----

  /** The latest header with a property, or -1. */
  function Latest(hs: seq<Header>, p: Header -> bool): (i: int)
    ensures -1 <= i < |hs| && (i >= 0 ==> p(hs[i])) && forall j :: i < j < |hs| ==> !p(hs[j])
  {
    if hs == [] then -1
    else if p(hs[|hs| - 1]) then |hs| - 1
    else Latest(hs[..|hs| - 1], p)
  }

  /** The latest header with a property, or the first one if there is none after it. */
  function Teller(hs: seq<Header>, p: Header -> bool): Header
    requires hs != []
  {
    var i := Latest(hs[1..], p);
    if i < 0 then hs[0] else hs[1..][i]
  }

  predicate SaysWhereStored(h: Header) { !IsPatch(h) && h.offset != -1 }

  predicate SaysPrevious(h: Header) { !IsPatch(h) || h.prev != -1 }

  function OnlyModifications(hs: seq<Header>): seq<Header> {
    if hs == [] then []
    else
      var last := hs[|hs| - 1];
      OnlyModifications(hs[..|hs| - 1]) + if last.flags.patch && last.flags.modified then [last] else []
  }

  /** The place of the data comes from the last whole header that says it, the previous message
      from the last one that says it, time and the flags without a rule from the last one. */
  predicate HistoryPlaces(hs: seq<Header>, m: Header)
    requires hs != []
  {
    var last := hs[|hs| - 1];
    && m.id == hs[0].id
    && m.offset == Teller(hs, SaysWhereStored).offset && m.size == Teller(hs, SaysWhereStored).size
    && m.prev == Teller(hs, SaysPrevious).prev
    && m.time == last.time && m.shared == last.shared
    && m.flags.outgoing == last.flags.outgoing && m.flags.rest == last.flags.rest
    && m.mods == hs[0].mods + OnlyModifications(hs[1..])
  }

  /** A patch as long as all are; deleted and modified as soon as one is; updated if one is
      and only patches followed. */
  predicate HistoryFlags(hs: seq<Header>, m: Header) {
    && (m.flags.patch <==> forall i :: 0 <= i < |hs| ==> hs[i].flags.patch)
    && (m.flags.deleted <==> exists i :: 0 <= i < |hs| && hs[i].flags.deleted)
    && (m.flags.modified <==> exists i :: 0 <= i < |hs| && hs[i].flags.modified)
    && (m.flags.updated <==>
          exists i :: 0 <= i < |hs| && hs[i].flags.updated && forall j :: i < j < |hs| ==> hs[j].flags.patch)
  }

  /** The version of one of them, and none of them has a newer one. */
  predicate HistoryVersion(hs: seq<Header>, m: Header) {
    && (exists i :: 0 <= i < |hs| && m.version == hs[i].version)
    && (forall i :: 0 <= i < |hs| ==> !LessThan(m.version, hs[i].version))
  }

  /** `m` is what the headers `hs` of one message, in the order of their arrival, come to. */
  predicate IsHistory(hs: seq<Header>, m: Header)
    requires hs != []
  {
    HistoryPlaces(hs, m) && HistoryFlags(hs, m) && HistoryVersion(hs, m)
  }

  lemma TellerSnoc(hs: seq<Header>, r: Header, p: Header -> bool)
    requires hs != []
    ensures Teller(hs + [r], p) == if p(r) then r else Teller(hs, p)
  {
    var rest := hs[1..];
    assert (hs + [r])[1..] == rest + [r] && (rest + [r])[..|rest|] == rest;
  }

  lemma ModificationsSnoc(hs: seq<Header>, r: Header)
    ensures OnlyModifications(hs + [r]) == OnlyModifications(hs) + if IsModification(r) then [r] else []
  {
    assert (hs + [r])[..|hs|] == hs;
  }

  lemma PlacesGrow(hs: seq<Header>, m: Header, r: Header)
    requires hs != [] && HistoryPlaces(hs, m)
    ensures HistoryPlaces(hs + [r], Merge(m, r))
  {
    hide Newer, Teller, OnlyModifications;
    var all, rest := hs + [r], hs[1..];
    assert all[1..] == rest + [r] && all[0] == hs[0];
    TellerSnoc(hs, r, SaysWhereStored);
    TellerSnoc(hs, r, SaysPrevious);
    ModificationsSnoc(rest, r);
    assert m.mods + [r] == hs[0].mods + (OnlyModifications(rest) + [r]);
    assert m.mods == hs[0].mods + (OnlyModifications(rest) + []);
  }

  lemma FlagsGrow(hs: seq<Header>, m: Header, r: Header)
    requires hs != [] && HistoryFlags(hs, m)
    ensures HistoryFlags(hs + [r], Merge(m, r))
  {
    hide Newer;
    var all, n := hs + [r], |hs|;
    assert all[n] == r;
    assert forall i :: 0 <= i < n ==> all[i] == hs[i];
    if m.flags.updated && r.flags.patch {
      var i :| 0 <= i < n && hs[i].flags.updated && forall j :: i < j < n ==> hs[j].flags.patch;
      assert all[i].flags.updated && forall j :: i < j < |all| ==> all[j].flags.patch;
    }
    if i :| 0 <= i < |all| && all[i].flags.updated && forall j :: i < j < |all| ==> all[j].flags.patch {
      if i < n {
        assert hs[i].flags.updated && forall j :: i < j < n ==> hs[j].flags.patch;
      }
    }
  }

  lemma VersionGrows(hs: seq<Header>, m: Header, r: Header)
    requires hs != [] && HistoryVersion(hs, m)
    ensures HistoryVersion(hs + [r], Merge(m, r))
  {
    hide LessThan;
    var all, x := hs + [r], Merge(m, r);
    assert all[|hs|] == r && forall i :: 0 <= i < |hs| ==> all[i] == hs[i];
    var k :| 0 <= k < |hs| && m.version == hs[k].version;
    assert all[k].version == m.version;
    Trichotomy(m.version, r.version);
    Trichotomy(r.version, r.version);
    forall i | 0 <= i < |hs|
      ensures !LessThan(x.version, hs[i].version)
    {
      if LessThan(m.version, r.version) && LessThan(r.version, hs[i].version) {
        Transitive(m.version, r.version, hs[i].version);
      }
    }
  }

  lemma HistoryGrows(hs: seq<Header>, m: Header, r: Header)
    requires hs != [] && IsHistory(hs, m)
    ensures IsHistory(hs + [r], Merge(m, r))
  {
    hide Merge, HistoryPlaces, HistoryFlags, HistoryVersion;
    PlacesGrow(hs, m, r);
    FlagsGrow(hs, m, r);
    VersionGrows(hs, m, r);
  }

  /** The headers of a message merged one after the other. */
  lemma {:induction false} MergedHistory(h: Header, rs: seq<Header>)
    ensures IsHistory([h] + rs, Replay(h, rs))
  {
    hide Merge, IsHistory;
    if rs == [] {
      assert [h] + rs == [h];
      OneHeader(h);
    } else {
      var n := |rs| - 1;
      MergedHistory(h, rs[..n]);
      HistoryGrows([h] + rs[..n], Replay(h, rs[..n]), rs[n]);
      assert ([h] + rs[..n]) + [rs[n]] == [h] + rs;
    }
  }

  lemma OneHeader(h: Header)
    ensures IsHistory([h], h)
  {
    Trichotomy(h.version, h.version);
    hide LessThan;
    assert [h][1..] == [] && [h][0] == h;
    assert h.mods + [] == h.mods;
  }

  // ----- The whole index -----

  function At(s: seq<Header>, id: int): Option<Header> {
    if Has(s, id) then Some(s[LowerBound(s, id)]) else None
  }

  function OfId(hs: seq<Header>, id: int): seq<Header> {
    if hs == [] then []
    else OfId(hs[..|hs| - 1], id) + if hs[|hs| - 1].id == id then [hs[|hs| - 1]] else []
  }

  function Known(s: seq<Header>, id: int): seq<Header> { if At(s, id).Some? then [At(s, id).value] else [] }

  lemma AtIs(s: seq<Header>, k: nat)
    requires Sorted(s) && k < |s|
    ensures At(s, s[k].id) == Some(s[k])
  {
  }

  lemma NotAt(s: seq<Header>, id: int)
    requires forall i :: 0 <= i < |s| ==> s[i].id != id
    ensures At(s, id) == None
  {
  }

  lemma AtIffId(s: seq<Header>, id: int)
    requires Sorted(s)
    ensures At(s, id).Some? <==> id in Ids(s)
    ensures At(s, id).Some? ==> Has(s, id) && s[LowerBound(s, id)] == At(s, id).value
  {
    if id in Ids(s) {
      var i :| 0 <= i < |s| && s[i].id == id;
      AtIs(s, i);
    }
  }

  lemma InsertedAt(s: seq<Header>, h: Header, id: int)
    requires Sorted(s)
    ensures Sorted(InsertOne(s, h))
    ensures At(InsertOne(s, h), id) ==
      if h.id != id then At(s, id) else if At(s, id).Some? then Some(Merge(At(s, id).value, h)) else Some(h)
  {
    hide Merge, LowerBound, At;
    var k := LowerBound(s, h.id);
    if k < |s| && s[k].id == h.id {
      MergeId(s[k], h);
      ReplacedAt(s, k, Merge(s[k], h), id);
      AtIs(s, k);
    } else {
      NewAt(s, k, h, id);
      NotAt(s, h.id);
    }
  }

  lemma ReplacedAt(s: seq<Header>, k: nat, m: Header, id: int)
    requires Sorted(s) && k < |s| && m.id == s[k].id
    ensures Sorted(s[k := m]) && At(s[k := m], id) == if id == m.id then Some(m) else At(s, id)
  {
    hide LowerBound, At;
    var r := s[k := m];
    assert forall i :: 0 <= i < |s| ==> r[i].id == s[i].id;
    AtIs(r, k);
    SameAt(s, r, k, id, 0);
  }

  lemma NewAt(s: seq<Header>, k: nat, h: Header, id: int)
    requires Sorted(s) && k <= |s|
    requires (forall i :: 0 <= i < k ==> s[i].id < h.id) && (forall i :: k <= i < |s| ==> s[i].id > h.id)
    ensures var r := s[..k] + [h] + s[k..]; Sorted(r) && At(r, id) == if id == h.id then Some(h) else At(s, id)
  {
    hide LowerBound, At;
    var r := s[..k] + [h] + s[k..];
    assert r[k] == h && (forall i :: 0 <= i < k ==> r[i] == s[i]) && (forall i :: k < i < |r| ==> r[i] == s[i - 1]);
    AtIs(r, k);
    SameAt(s, r, k, id, 1);
  }

  /** Other ids keep their headers when one header is replaced or put in. */
  lemma SameAt(s: seq<Header>, r: seq<Header>, k: nat, id: int, more: nat)
    requires Sorted(s) && Sorted(r) && k < |r| == |s| + more && more <= 1 && k <= |s|
    requires (forall i :: 0 <= i < k ==> r[i] == s[i]) && (forall i :: k < i < |r| ==> r[i] == s[i - more])
    requires more == 0 ==> k < |s| && s[k].id == r[k].id
    ensures id != r[k].id ==> At(r, id) == At(s, id)
  {
    hide LowerBound, At;
    if i :| 0 <= i < |s| && s[i].id == id {
      AtIs(s, i);
      if id != r[k].id {
        AtIs(r, if i < k then i else i + more);
      }
    } else {
      NotAt(s, id);
      if id != r[k].id {
        assert forall i :: 0 <= i < |r| ==> r[i].id != id;
        NotAt(r, id);
      }
    }
  }

  lemma OfIdSnoc(s: seq<Header>, hs: seq<Header>, id: int)
    requires hs != []
    ensures var n := |hs| - 1;
      Known(s, id) + OfId(hs, id) == Known(s, id) + OfId(hs[..n], id) + if hs[n].id == id then [hs[n]] else []
  {
    hide Known;
  }

  lemma ReplaySnoc(was: seq<Header>, h: Header)
    requires was != []
    ensures Replay((was + [h])[0], (was + [h])[1..]) == Merge(Replay(was[0], was[1..]), h)
  {
    hide Merge;
    assert (was + [h])[1..] == was[1..] + [h];
    assert (was[1..] + [h])[..|was| - 1] == was[1..];
  }

  /** The header held is what those of its message come to, if there are any. */
  predicate Holds(all: seq<Header>, m: Option<Header>) {
    if all == [] then m.None? else m.Some? && m.value == Replay(all[0], all[1..])
  }

  lemma {:induction false} InsertedHistory(s: seq<Header>, hs: seq<Header>, id: int)
    requires Sorted(s)
    ensures Sorted(InsertAll(s, hs)) && Holds(Known(s, id) + OfId(hs, id), At(InsertAll(s, hs), id))
  {
    hide InsertOne, Merge, At, Sorted, OfId, Replay;
    if hs == [] {
      NoneOfId(id);
      assert Known(s, id) + [] == Known(s, id);
      ReplayNothing(s, id);
    } else {
      var n := |hs| - 1;
      var was := Known(s, id) + OfId(hs[..n], id);
      InsertedHistory(s, hs[..n], id);
      InsertedAt(InsertAll(s, hs[..n]), hs[n], id);
      OfIdSnoc(s, hs, id);
      if hs[n].id != id {
        assert was + [] == was;
      } else if was != [] {
        ReplaySnoc(was, hs[n]);
      } else {
        assert was + [hs[n]] == [hs[n]];
        ReplayOne(hs[n]);
      }
    }
  }

  lemma NoneOfId(id: int)
    ensures OfId([], id) == []
  {
  }

  lemma ReplayOne(h: Header)
    ensures Replay([h][0], [h][1..]) == h
  {
  }

  lemma ReplayNothing(s: seq<Header>, id: int)
    ensures Holds(Known(s, id), At(s, id))
  {
    hide At;
    if At(s, id).Some? {
      ReplayOne(At(s, id).value);
    }
  }

  /** An index after any insertions: of each message it holds exactly what its headers come to,
      those it held before and then those inserted, and no message of which there was none. */
  lemma IndexHistory(s: seq<Header>, hs: seq<Header>, id: int)
    requires Sorted(s)
    ensures var all, m := Known(s, id) + OfId(hs, id), At(InsertAll(s, hs), id);
      if all == [] then m.None? else m.Some? && IsHistory(all, m.value)
  {
    hide IsHistory, Replay, At;
    InsertedHistory(s, hs, id);
    var all := Known(s, id) + OfId(hs, id);
    if all != [] {
      MergedHistory(all[0], all[1..]);
      assert [all[0]] + all[1..] == all;
    }
  }
}
