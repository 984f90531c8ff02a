/** Headers of archived messages and how two headers of one message merge
    (core/archive/history_message.cpp). */
module MessageHeaders {
  import opened PatchVersions

  /** The named flag bits; `rest` stands for all the others. */
  datatype Flags = Flags(patch: bool, deleted: bool, modified: bool, updated: bool, outgoing: bool, rest: int)

  datatype Header = Header(
    id: int,
    flags: Flags,
    time: int,
    prev: int,
    offset: int,
    size: int,
    version: string,
    shared: bool,
    mods: seq<Header>)

  predicate IsPatch(h: Header) { h.flags.patch }

  predicate IsDeleted(h: Header) { h.flags.deleted }

  predicate IsModified(h: Header) { h.flags.modified }

  /** A patch that changes a message's text. */
  predicate IsModification(h: Header) { h.flags.modified && h.flags.patch }

  function Newer(a: string, b: string): string { if LessThan(a, b) then b else a }

  /** `message_header::merge_with`: `r` arrived after `h`. */
  function Merge(h: Header, r: Header): Header {
    Header(
      h.id,
      r.flags.(
        patch := r.flags.patch && h.flags.patch,
        deleted := r.flags.deleted || h.flags.deleted,
        modified := r.flags.modified || h.flags.modified,
        updated := r.flags.updated || (h.flags.updated && r.flags.patch)),
      r.time,
      if r.prev != -1 || !r.flags.patch then r.prev else h.prev,
      if r.offset != -1 && !r.flags.patch then r.offset else h.offset,
      if r.offset != -1 && !r.flags.patch then r.size else h.size,
      Newer(h.version, r.version),
      r.shared,
      if IsModification(r) then h.mods + [r] else h.mods)
  }

  /** What `serialize` writes and `unserialize` reads back: modifications are not part of it. */
  function Record(h: Header): Header { h.(mods := []) }

  function Records(hs: seq<Header>): (r: seq<Header>)
    ensures |r| == |hs| && forall i :: 0 <= i < |hs| ==> r[i] == Record(hs[i])
  {
    seq(|hs|, i requires 0 <= i < |hs| => Record(hs[i]))
  }

  /** Every header in memory has a positive id, and its modifications are
      modification patches of the same message. */
  predicate HeaderOk(h: Header) {
    && h.id > 0
    && (h.mods != [] ==> IsModified(h))
    && forall i :: 0 <= i < |h.mods| ==> h.mods[i].id == h.id && IsModification(h.mods[i])
  }

  lemma MergeOk(h: Header, r: Header)
    requires HeaderOk(h) && r.id == h.id
    ensures HeaderOk(Merge(h, r))
  {
  }

  // ----- Merging twice -----

  lemma NewerAbsorbs(a: string, b: string)
    ensures Newer(a, Newer(a, b)) == Newer(a, b) && Newer(a, a) == a
  {
    Trichotomy(a, b);
    Trichotomy(a, a);
  }

  /** Merging what a merge produced changes nothing more, unless it is recorded as a modification. */
  lemma MergeIdempotent(h: Header, r: Header)
    requires !IsModification(Merge(h, r)) && !IsModification(r)
    ensures Merge(h, Record(Merge(h, r))) == Merge(h, r)
  {
    NewerAbsorbs(h.version, r.version);
  }

  /** A header merged with itself stays the same exactly when it is not a modification
      patch: an orphan modification becomes a modification of itself. */
  lemma MergeSelf(h: Header)
    ensures Merge(h, h) == h <==> !IsModification(h)
  {
    NewerAbsorbs(h.version, h.version);
  }

  // ----- Replaying modifications -----

  function Replay(h: Header, ms: seq<Header>): Header {
    if ms == [] then h else Merge(Replay(h, ms[..|ms| - 1]), ms[|ms| - 1])
  }

  /** The header that a reload builds from the records of `h`. */
  function Reloaded(h: Header): Header {
    if IsModified(h) then Replay(Record(h), Records(h.mods)) else Record(h)
  }

  predicate Modifications(ms: seq<Header>) { forall i :: 0 <= i < |ms| ==> IsModification(ms[i]) }

  function LastPrev(prev: int, ms: seq<Header>): int {
    if ms == [] then prev
    else if ms[|ms| - 1].prev != -1 then ms[|ms| - 1].prev
    else LastPrev(prev, ms[..|ms| - 1])
  }

  function NewestVersion(v: string, ms: seq<Header>): string {
    if ms == [] then v else Newer(NewestVersion(v, ms[..|ms| - 1]), ms[|ms| - 1].version)
  }

  predicate AnyDeleted(ms: seq<Header>) { exists i :: 0 <= i < |ms| && ms[i].flags.deleted }

  predicate AnyUpdated(ms: seq<Header>) { exists i :: 0 <= i < |ms| && ms[i].flags.updated }

  lemma {:induction false} ReplayFields(h: Header, ms: seq<Header>)
    requires Modifications(ms)
    ensures var r := Replay(h, ms);
      && r.id == h.id && r.offset == h.offset && r.size == h.size && r.mods == h.mods + ms
      && r.prev == LastPrev(h.prev, ms) && r.version == NewestVersion(h.version, ms)
      && r.flags.patch == h.flags.patch
      && r.flags.deleted == (h.flags.deleted || AnyDeleted(ms))
      && r.flags.updated == (h.flags.updated || AnyUpdated(ms))
      && (ms == [] ==> r == h)
      && (ms != [] ==>
           var l := ms[|ms| - 1];
           r.time == l.time && r.shared == l.shared && r.flags.modified
           && r.flags.outgoing == l.flags.outgoing && r.flags.rest == l.flags.rest)
  {
    if ms == [] {
      assert h.mods + ms == h.mods;
    } else {
      var n := |ms| - 1;
      ReplayFields(h, ms[..n]);
      assert ms == ms[..n] + [ms[n]];
    }
  }

  // ----- Which headers survive a save and a reload -----

  /** Modification `i` is the last one that knows its previous message. */
  predicate LastKnown(ms: seq<Header>, i: nat) {
    i < |ms| && ms[i].prev != -1 && forall j :: i < j < |ms| ==> ms[j].prev == -1
  }

  /** The last modification that knows a previous message, if any, knows this one. */
  predicate PrevSettled(prev: int, ms: seq<Header>) {
    forall i :: 0 <= i < |ms| && LastKnown(ms, i) ==> ms[i].prev == prev
  }

  predicate NoneNewer(v: string, ms: seq<Header>) { forall i :: 0 <= i < |ms| ==> !LessThan(v, ms[i].version) }

  predicate Flat(ms: seq<Header>) { forall i :: 0 <= i < |ms| ==> ms[i].mods == [] }

  /** The header agrees with its modifications: nothing but modifications was
      merged into it after the first of them. */
  predicate Stable(h: Header) {
    && (forall i :: 0 <= i < |h.mods| ==>
         && h.mods[i].mods == []
         && (h.mods[i].flags.deleted ==> h.flags.deleted)
         && (h.mods[i].flags.updated ==> h.flags.updated)
         && !LessThan(h.version, h.mods[i].version))
    && (forall i :: 0 <= i < |h.mods| && LastKnown(h.mods, i) ==> h.mods[i].prev == h.prev)
    && (h.mods != [] ==>
         var l := h.mods[|h.mods| - 1];
         && h.time == l.time && h.shared == l.shared
         && h.flags.outgoing == l.flags.outgoing && h.flags.rest == l.flags.rest)
  }

  lemma {:induction false} LastPrevSettled(prev: int, ms: seq<Header>)
    ensures LastPrev(prev, ms) == prev <==> PrevSettled(prev, ms)
  {
    if ms == [] {
    } else {
      var n := |ms| - 1;
      if ms[n].prev == -1 {
        var u := ms[..n];
        LastPrevSettled(prev, u);
        forall i | 0 <= i < n
          ensures LastKnown(ms, i) <==> LastKnown(u, i)
        {
          assert LastKnown(u, i) ==> forall j :: i < j < |ms| ==> ms[j].prev == -1;
          assert forall j :: i < j < |u| ==> u[j] == ms[j];
        }
      } else {
        assert LastKnown(ms, n);
      }
    }
  }

  lemma {:induction false} NewestSettled(v: string, ms: seq<Header>)
    ensures NewestVersion(v, ms) == v <==> NoneNewer(v, ms)
    ensures NewestVersion(v, ms) == v || LessThan(v, NewestVersion(v, ms))
  {
    if ms == [] {
    } else {
      var n := |ms| - 1;
      NewestSettled(v, ms[..n]);
      var u := NewestVersion(v, ms[..n]);
      Trichotomy(u, ms[n].version);
      Trichotomy(v, ms[n].version);
      Trichotomy(v, u);
      if LessThan(v, u) && LessThan(u, ms[n].version) {
        Transitive(v, u, ms[n].version);
      }
    }
  }

  /** A header is rebuilt by a save and a reload exactly when it is stable. */
  lemma ReloadedIffStable(h: Header)
    requires HeaderOk(h)
    ensures Reloaded(h) == h <==> Stable(h)
  {
    if h.mods != [] {
      ReloadedModified(h);
    } else {
      assert Records(h.mods) == [];
      ReplayNothing(h);
    }
  }

  /** What `r`, rebuilt from the records of `h`, has in its fields. */
  predicate ReloadedAs(h: Header, r: Header)
    requires h.mods != []
  {
    var l := h.mods[|h.mods| - 1];
    && r.id == h.id && r.offset == h.offset && r.size == h.size && r.flags.patch == h.flags.patch && r.flags.modified
    && (r.mods == h.mods <==> Flat(h.mods))
    && (r.prev == h.prev <==> PrevSettled(h.prev, h.mods))
    && (r.version == h.version <==> NoneNewer(h.version, h.mods))
    && r.flags.deleted == (h.flags.deleted || AnyDeleted(h.mods))
    && r.flags.updated == (h.flags.updated || AnyUpdated(h.mods))
    && r.time == l.time && r.shared == l.shared && r.flags.outgoing == l.flags.outgoing && r.flags.rest == l.flags.rest
  }

  lemma ReloadedModified(h: Header)
    requires HeaderOk(h) && h.mods != []
    ensures Reloaded(h) == h <==> Stable(h)
  {
    hide LastPrev, NewestVersion, LastKnown, LessThan, Replay, Merge, Stable, Records, HeaderOk;
    ReloadedFields(h);
    StableParts(h, Reloaded(h));
  }

  /** The fields of a reloaded header, told from the modifications it was saved with. */
  lemma ReloadedFields(h: Header)
    requires HeaderOk(h) && h.mods != []
    ensures var r := Reloaded(h); ReloadedAs(h, r)
  {
    hide LastPrev, NewestVersion, Replay, Stable, Records, AnyDeleted, AnyUpdated, PrevSettled, NoneNewer, Flat;
    var ms := Records(h.mods);
    RecordsModify(h.mods);
    ReplayFields(Record(h), ms);
    LastPrevSettled(h.prev, ms);
    NewestSettled(h.version, ms);
    StableRecords(h);
    RecordsSame(h.mods);
    assert Record(h).mods + ms == ms;
  }

  lemma RecordsModify(ms: seq<Header>)
    ensures Modifications(ms) ==> Modifications(Records(ms))
  {
  }

  lemma ReplayNothing(h: Header)
    requires h.mods == []
    ensures Replay(Record(h), []) == h
  {
  }

  lemma RecordsSame(ms: seq<Header>)
    ensures Records(ms) == ms <==> Flat(ms)
  {
    if Records(ms) == ms {
      assert forall i :: 0 <= i < |ms| ==> ms[i] == Record(ms[i]);
    }
  }

  /** Stability, clause by clause, for a reload `r` whose fields are known. */
  lemma StableParts(h: Header, r: Header)
    requires h.mods != [] && HeaderOk(h) && ReloadedAs(h, r)
    ensures r == h <==> Stable(h)
  {
    hide LastKnown, LessThan;
    assert r == h <==> r.mods == h.mods && r.prev == h.prev && r.version == h.version && r.time == h.time
                       && r.shared == h.shared && r.flags == h.flags;
  }

  /** The fields that stability looks at are the same in the records. */
  lemma StableRecords(h: Header)
    ensures var ms, os := Records(h.mods), h.mods;
      && AnyDeleted(ms) == AnyDeleted(os) && AnyUpdated(ms) == AnyUpdated(os)
      && NoneNewer(h.version, ms) == NoneNewer(h.version, os) && PrevSettled(h.prev, ms) == PrevSettled(h.prev, os)
  {
    hide LessThan;
    var ms, os := Records(h.mods), h.mods;
    assert forall i :: 0 <= i < |ms| ==> ms[i] == Record(os[i]);
    forall i | 0 <= i < |ms|
      ensures LastKnown(ms, i) <==> LastKnown(os, i)
    {
    }
    if i :| 0 <= i < |os| && os[i].flags.deleted {
      assert ms[i].flags.deleted;
    }
    if i :| 0 <= i < |os| && os[i].flags.updated {
      assert ms[i].flags.updated;
    }
  }

  /** A message that was only ever modified, by patches without modifications of
      their own, is stable whatever they say. */
  lemma ModifiedIsStable(h: Header, ms: seq<Header>)
    requires h.mods == [] && Modifications(ms) && forall i :: 0 <= i < |ms| ==> ms[i].mods == []
    ensures Stable(Replay(h, ms))
  {
    ReplayFields(h, ms);
    var r := Replay(h, ms);
    assert h.mods + ms == ms;
    LastPrevAgain(h.prev, ms);
    LastPrevSettled(r.prev, ms);
    NewestAgain(h.version, ms);
    NewestSettled(r.version, ms);
  }

  lemma LastPrevAgain(prev: int, ms: seq<Header>)
    ensures LastPrev(LastPrev(prev, ms), ms) == LastPrev(prev, ms)
  {
    LastPrevChoice(prev, ms, LastPrev(prev, ms));
  }

  /** The result is either the start value or does not depend on it. */
  lemma {:induction false} LastPrevChoice(prev: int, ms: seq<Header>, other: int)
    ensures (LastPrev(prev, ms) == prev && LastPrev(other, ms) == other) || LastPrev(prev, ms) == LastPrev(other, ms)
  {
    if ms == [] {
    } else {
      LastPrevChoice(prev, ms[..|ms| - 1], other);
    }
  }

  lemma NewestAgain(v: string, ms: seq<Header>)
    ensures NewestVersion(NewestVersion(v, ms), ms) == NewestVersion(v, ms)
  {
    forall i | 0 <= i < |ms|
      ensures !LessThan(NewestVersion(v, ms), ms[i].version)
    {
      NewestIsNewest(v, ms, i);
    }
    NewestSettled(NewestVersion(v, ms), ms);
  }

  lemma {:induction false} NewestIsNewest(v: string, ms: seq<Header>, i: nat)
    requires i < |ms|
    ensures !LessThan(NewestVersion(v, ms), ms[i].version)
  {
    var n := |ms| - 1;
    var u := NewestVersion(v, ms[..n]);
    Trichotomy(u, ms[n].version);
    Trichotomy(ms[n].version, ms[n].version);
    if i < n {
      NewestIsNewest(v, ms[..n], i);
      assert ms[..n][i] == ms[i];
      if LessThan(u, ms[n].version) && LessThan(ms[n].version, ms[i].version) {
        Transitive(u, ms[n].version, ms[i].version);
      }
    }
  }

  /** But a whole header that arrives after a modification makes the message unstable
      as soon as its time differs: the reload gives it the modification's time. */
  lemma LaterHeaderUnstable(h: Header, m: Header, r: Header)
    requires h.id == m.id == r.id && IsModification(m) && !IsModification(r) && r.time != m.time
    ensures !Stable(Merge(Merge(h, m), r))
  {
  }
}
