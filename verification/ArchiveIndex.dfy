/** The archive index: an ordered map of headers, its file of blocks, and the
    queries and changes made to them (core/archive/archive_index.cpp). */
module ArchiveIndexes {
  import opened MessageHeaders
  import opened ArchiveStore
  import opened ArchiveChain
  import opened ArchiveWindows
  import opened HeaderHistories

  const MAX_INDEX_SIZE := 25000
  const INDEX_SIZE_NEED_OPTIMIZE := 30000
  const OUTGOING_COUNT_TIME_SPAN := 21 * 24 * 3600

  datatype LoadError = NoError | StorageFailed | HeadersUnparsed

  // ----- What is counted while headers are inserted -----

  /** Headers merged into others, and new outgoing messages of the last three weeks. */
  datatype Counts = Counts(merged: nat, outgoing: nat)

  function Count(s: seq<Header>, h: Header, now: int, c: Counts): Counts {
    if Has(s, h.id) then c.(merged := c.merged + if IsModification(Echo(s, h)) then 0 else 1)
    else
      c.(outgoing := c.outgoing + if h.flags.outgoing && now - h.time <= OUTGOING_COUNT_TIME_SPAN then 1 else 0)
  }

  function CountAll(s: seq<Header>, hs: seq<Header>, now: int, c: Counts): Counts {
    if hs == [] then c
    else
      var n := |hs| - 1;
      Count(InsertAll(s, hs[..n]), hs[n], now, CountAll(s, hs[..n], now, c))
  }

  lemma {:induction false} CountAllConcat(s: seq<Header>, a: seq<Header>, b: seq<Header>, now: int, c: Counts)
    ensures CountAll(s, a + b, now, c) == CountAll(InsertAll(s, a), b, now, CountAll(s, a, now, c))
  {
    hide InsertAll, Count;
    if b == [] {
      assert a + b == a;
    } else {
      var n := |b| - 1;
      assert (a + b)[..|a| + n] == a + b[..n];
      CountAllConcat(s, a, b[..n], now, c);
      InsertAllConcat(s, a, b[..n]);
    }
  }

  /** Every inserted header adds one to the index or to the merge count, save modifications
      of indexed messages, which may add to neither. */
  lemma {:induction false} MergedOrAdded(s: seq<Header>, hs: seq<Header>, now: int, c: Counts)
    ensures var r, k := InsertAll(s, hs), CountAll(s, hs, now, c);
      && k.merged - c.merged <= |s| + |hs| - |r|
      && ((forall i :: 0 <= i < |hs| ==> !IsModification(hs[i])) ==> k.merged - c.merged == |s| + |hs| - |r|)
  {
    hide Merge, LowerBound;
    if hs == [] {
    } else {
      MergedOrAdded(s, hs[..|hs| - 1], now, c);
    }
  }

  /** What `delete_up_to(t)` leaves of an index. */
  function AfterDelete(s: seq<Header>, t: int): seq<Header> {
    var k := LowerBound(s, t + 1);
    Dropped(s, k, Has(s, t) && k < |s| && s[k].prev == t)
  }

  /** What trimming to the newest headers leaves of an index that is too large. */
  function AfterTrim(s: seq<Header>): seq<Header> {
    if |s| > MAX_INDEX_SIZE then Dropped(s, |s| - MAX_INDEX_SIZE, true) else s
  }

  /** Where a hole search begins: behind the named header, or behind the last one. */
  function SearchStart(s: seq<Header>, from: int): (k: nat)
    requires from == -1 || Has(s, from)
    ensures k <= |s|
  {
    if from == -1 then |s| else LowerBound(s, from) + 1
  }

  /** A hole search looks at the headers up to the named one, or at all. */
  lemma SearchPlaced(s: seq<Header>, from: int)
    requires Sorted(s) && (from == -1 || Has(s, from))
    ensures forall i :: 0 <= i < |s| ==> (i < SearchStart(s, from) <==> from == -1 || s[i].id <= from)
  {
  }

  class ArchiveIndex {
    var headers: seq<Header>
    var merged: nat
    var outgoing: nat
    var lastError: LoadError
    var loaded: bool
    var blocks: seq<Block>
    const blockSize: nat

    ghost predicate Valid()
      reads this
    {
      IndexOk(headers)
    }

    ghost function Counters(): Counts
      reads this
    {
      Counts(merged, outgoing)
    }

    constructor (blockSize: nat)
      ensures Valid() && headers == [] && Counters() == Counts(0, 0) && !loaded && blocks == []
      ensures this.blockSize == blockSize
    {
      headers, merged, outgoing, loaded, blocks := [], 0, 0, false, [];
      lastError := NoError;
      this.blockSize := blockSize;
    }

    // ----- Inserting and updating -----

    method InsertHeader(h: Header, now: int) returns (echo: Header)
      requires Valid() && HeaderOk(h)
      modifies `headers, `merged, `outgoing
      ensures Valid() && headers == InsertOne(old(headers), h) && echo == Echo(old(headers), h)
      ensures Counters() == Count(old(headers), h, now, old(Counters()))
      ensures At(headers, h.id).Some?
      ensures var known, m := h.id in Ids(old(headers)), At(headers, h.id).value;
        && (if known then m == Merge(At(old(headers), h.id).value, h) else m == h)
        && echo == (if known && !m.flags.deleted && !m.flags.modified then m else h)
        && outgoing == old(outgoing) +
             if !known && h.flags.outgoing && now - h.time <= 1_814_400 then 1 else 0
    {
      hide Merge, HeaderOk;
      InsertedAt(headers, h, h.id);
      AtIffId(headers, h.id);
      InsertOneOk(headers, h);
      echo := h;
      var k := LowerBound(headers, h.id);
      if k == |headers| || headers[k].id != h.id {
        if h.flags.outgoing && now - h.time <= OUTGOING_COUNT_TIME_SPAN {
          outgoing := outgoing + 1;
        }
        headers := headers[..k] + [h] + headers[k..];
        return;
      }
      headers := headers[k := Merge(headers[k], h)];
      if !IsDeleted(headers[k]) && !IsModified(headers[k]) {
        echo := headers[k];
      }
      if !IsModification(echo) {
        merged := merged + 1;
      }
    }

    /** Inserts the headers of arrived messages and appends them to the file. */
    method Update(data: seq<Header>, now: int) returns (list: seq<Header>)
      requires Valid() && AllOk(data)
      modifies `headers, `merged, `outgoing, `blocks
      ensures Valid() && headers == InsertAll(old(headers), data) && list == Echoes(old(headers), data)
      ensures Counters() == CountAll(old(headers), data, now, old(Counters()))
      ensures blocks == old(blocks) + if data == [] then [] else [Block(Records(list), false)]
    {
      hide HeaderOk, InsertOne, Echo, Count;
      list := [];
      for i := 0 to |data|
        invariant Valid() && headers == InsertAll(old(headers), data[..i])
        invariant Counters() == CountAll(old(headers), data[..i], now, old(Counters()))
        invariant list == Echoes(old(headers), data[..i]) && blocks == old(blocks)
      {
        assert data[..i + 1][..i] == data[..i];
        var echo := InsertHeader(data[i], now);
        list := list + [echo];
      }
      assert data[..|data|] == data;
      if list != [] {
        blocks := blocks + [Block(Records(list), false)];
      }
    }

    /** `get_outgoing_count`. */
    function OutgoingCount(): int
      reads this
    {
      if loaded then outgoing else -1
    }

    // ----- Saving and loading -----

    /** Writes every header, each followed by its modifications, cut into blocks. */
    method SaveAll()
      modifies `blocks
      ensures Sound(blocks) && ReadRecords(blocks) == AllRecords(headers)
      ensures forall i :: 0 <= i < |blocks| ==> blocks[i].records != []
    {
      hide AllRecords, ReadRecords;
      AllRecordsNone();
      blocks := [];
      var pending := [];
      for i := 0 to |headers|
        invariant Sound(blocks) && ReadRecords(blocks) + pending == AllRecords(headers[..i])
        invariant i == |headers| ==> pending == []
        invariant forall j :: 0 <= j < |blocks| ==> blocks[j].records != []
      {
        AllRecordsSnoc(headers, i);
        ghost var before := pending;
        pending := pending + [Record(headers[i])];
        if IsModified(headers[i]) {
          pending := pending + Records(headers[i].mods);
        }
        assert pending == before + RecordsOf(headers[i]);
        if |pending| >= blockSize || i == |headers| - 1 {
          ReadRecordsSnoc(blocks, Block(pending, false));
          blocks := blocks + [Block(pending, false)];
          pending := [];
        }
      }
      assert headers[..|headers|] == headers;
    }

    /** Reads the file into an empty index and merges what was in memory into it, counting
        afresh. A block that cannot be read ends the load, but nothing in memory is lost. */
    method LoadFromLocal(readable: bool, cleanEnd: bool, now: int) returns (ok: bool)
      requires Valid() && forall i :: 0 <= i < |blocks| ==> AllOk(blocks[i].records)
      modifies `headers, `merged, `outgoing, `loaded, `lastError
      ensures Valid()
      ensures !readable ==> headers == old(headers) && Counters() == old(Counters())
      ensures readable ==>
        && headers == InsertAll([], ReadRecords(blocks) + old(headers))
        && Counters() == CountAll([], ReadRecords(blocks) + old(headers), now, Counts(0, 0))
      ensures Ids(old(headers)) <= Ids(headers)
      ensures ok == (readable && Sound(blocks) && cleanEnd) && loaded == (ok || old(loaded))
      ensures lastError ==
        if ok then NoError else if readable && !Sound(blocks) then HeadersUnparsed else StorageFailed
    {
      hide InsertAll, CountAll, ReadRecords, HeaderOk;
      lastError := NoError;
      if !readable {
        lastError := StorageFailed;
        return false;
      }
      var memory := headers;
      headers, merged, outgoing := [], 0, 0;
      ok := ReadBlocks(now);
      InsertAllOk(headers, memory);
      InsertAllConcat([], ReadRecords(blocks), memory);
      CountAllConcat([], ReadRecords(blocks), memory, now, Counts(0, 0));
      InsertMany(memory, now);
      if !ok {
        lastError := HeadersUnparsed;
      } else if !cleanEnd {
        lastError := StorageFailed;
        ok := false;
      } else {
        loaded := true;
      }
    }

    method ReadBlocks(now: int) returns (ok: bool)
      requires headers == [] && forall i :: 0 <= i < |blocks| ==> AllOk(blocks[i].records)
      modifies `headers, `merged, `outgoing
      ensures Valid() && headers == InsertAll([], ReadRecords(blocks)) && ok == Sound(blocks)
      ensures Counters() == CountAll([], ReadRecords(blocks), now, old(Counters()))
    {
      hide InsertOne, HeaderOk, Count, CountAll;
      var i := 0;
      ok := true;
      assert blocks[0..] == blocks;
      CountNothing([], now, Counters());
      while i < |blocks| && ok
        invariant i <= |blocks| && Valid()
        invariant ok ==> Sound(blocks[..i])
        invariant !ok ==> !Sound(blocks)
        invariant InsertAll([], ReadRecords(blocks)) ==
          if ok then InsertAll(headers, ReadRecords(blocks[i..])) else headers
        invariant CountAll([], ReadRecords(blocks), now, old(Counters())) ==
          if ok then CountAll(headers, ReadRecords(blocks[i..]), now, Counters()) else Counters()
      {
        InsertAllConcat(headers, blocks[i].records, ReadRecords(blocks[i + 1..]));
        CountAllConcat(headers, blocks[i].records, ReadRecords(blocks[i + 1..]), now, Counters());
        assert blocks[i..][1..] == blocks[i + 1..];
        InsertMany(blocks[i].records, now);
        ok := !blocks[i].damaged;
        i := i + 1;
      }
      assert ok ==> blocks[..i] == blocks;
      CountNothing(headers, now, Counters());
    }

    static lemma CountNothing(s: seq<Header>, now: int, c: Counts)
      ensures CountAll(s, [], now, c) == c
    {
    }

    method InsertMany(hs: seq<Header>, now: int)
      requires Valid() && AllOk(hs)
      modifies `headers, `merged, `outgoing
      ensures Valid() && headers == InsertAll(old(headers), hs)
      ensures Counters() == CountAll(old(headers), hs, now, old(Counters()))
    {
      hide HeaderOk, InsertOne, Echo, Count;
      for i := 0 to |hs|
        invariant Valid() && headers == InsertAll(old(headers), hs[..i])
        invariant Counters() == CountAll(old(headers), hs[..i], now, old(Counters()))
      {
        assert hs[..i + 1][..i] == hs[..i];
        var _ := InsertHeader(hs[i], now);
      }
      assert hs[..|hs|] == hs;
    }

    // ----- Windows -----

    /** Reads the window around a start: the list grows at both ends. */
    method SerializeFrom(from: int, early: int, later: int, list: seq<Header>, withStart: bool)
      returns (ok: bool, out: seq<Header>)
      ensures headers == [] ==> ok && out == list
      ensures headers != [] ==> ok == (from == -1 || WindowStart(headers, from) < |headers|)
      ensures !ok ==> out == list
      ensures ok && headers != [] ==>
        var k := WindowStart(headers, from);
        out == EarlyPart(headers, k, early, later, withStart) + list + LaterPart(headers, k, later)
    {
      hide EarlyRun, Live;
      if headers == [] {
        return true, list;
      }
      var k := |headers|;
      if from != -1 {
        k := LowerBound(headers, from);
        if k == |headers| {
          return false, list;
        }
      }
      var front, back := [], [];
      if early > 0 {
        front := ReadEarly(EarlyEnd(headers, k, later, withStart), early);
      }
      if later > 0 {
        back := ReadLater(k, later);
      }
      return true, front + list + back;
    }

    method ReadEarly(end: nat, count: nat) returns (list: seq<Header>)
      requires end <= |headers|
      ensures list == EarlyRun(headers[..end], count)
    {
      list := [];
      var k, notDeleted := end, 0;
      while k != 0
        invariant 0 <= k <= end && notDeleted <= count
        invariant EarlyRun(headers[..end], count) == EarlyRun(headers[..k], count - notDeleted) + list
      {
        assert headers[..k][..k - 1] == headers[..k - 1];
        k := k - 1;
        if !IsPatch(headers[k]) {
          if notDeleted >= count {
            break;
          }
          if !IsDeleted(headers[k]) {
            notDeleted := notDeleted + 1;
          }
          list := [headers[k]] + list;
        }
      }
    }

    method ReadLater(start: nat, count: nat) returns (list: seq<Header>)
      requires start <= |headers| && count > 0
      ensures list == Oldest(Live(headers[start..]), count)
    {
      list := [];
      var k, notDeleted := start, 0;
      while k < |headers|
        invariant start <= k <= |headers| && notDeleted == |list| < count
        invariant list == Live(headers[start..k])
      {
        assert headers[start..k + 1][..k - start] == headers[start..k];
        k := k + 1;
        if IsPatch(headers[k - 1]) || IsDeleted(headers[k - 1]) {
          continue;
        }
        notDeleted := notDeleted + 1;
        list := list + [headers[k - 1]];
        if notDeleted >= count {
          break;
        }
      }
      FirstLive(headers, start, k, count);
    }

    /** Marks the data of the headers in a window as unreadable. */
    method InvalidateMessageData(from: int, before: int, after: int)
      requires Valid()
      modifies `headers
      ensures Valid() && |headers| == |old(headers)|
      ensures var s, k := old(headers), LowerBound(old(headers), from);
        forall i :: 0 <= i < |s| ==>
          headers[i] ==
            if k < |s| && (TouchedBefore(s, EarlyEnd(s, k, after, true), before, i) || TouchedAfter(s, k, after, i))
            then s[i].(offset := 0x7FFF_FFFF_FFFF_FFFF) else s[i]
    {
      hide NonPatch, HeaderOk;
      ghost var s := headers;
      var k := LowerBound(headers, from);
      if k == |headers| {
        return;
      }
      if before > 0 {
        InvalidateBefore(EarlyEnd(headers, k, after, true), before);
      }
      if after > 0 {
        InvalidateAfter(s, k, after);
      }
      InvalidatedOk(s, headers);
    }

    method InvalidateBefore(end: nat, count: nat)
      requires end <= |headers|
      modifies `headers
      ensures |headers| == |old(headers)|
      ensures forall i :: 0 <= i < |headers| ==>
        headers[i] ==
          if TouchedBefore(old(headers), end, count, i) then Invalidated(old(headers)[i]) else old(headers)[i]
    {
      hide NonPatch;
      ghost var s := headers;
      var k, remaining := end, count;
      assert s[end..end] == [];
      NoChain();
      while k != 0
        invariant 0 <= k <= end && |headers| == |s| && remaining >= 0
        invariant |NonPatch(s[k..end])| == count - remaining
        invariant forall i :: 0 <= i < k ==> headers[i] == s[i]
        invariant forall i :: k <= i < |s| ==>
          headers[i] == if TouchedBefore(s, end, count, i) then Invalidated(s[i]) else s[i]
      {
        k := k - 1;
        ChainFront(s[k], s[k + 1..end]);
        assert s[k..end] == [s[k]] + s[k + 1..end];
        if !IsPatch(headers[k]) {
          if remaining <= 0 {
            BeyondBefore(s, k, end, count);
            break;
          }
          remaining := remaining - 1;
          headers := headers[k := Invalidated(headers[k])];
        }
      }
    }

    /** The headers from `start` on that were not touched yet still count; `s` is the
        index before the invalidation. */
    method InvalidateAfter(ghost s: seq<Header>, start: nat, count: nat)
      requires start <= |headers| == |s|
      requires forall i :: 0 <= i < |s| ==> IsPatch(headers[i]) == IsPatch(s[i])
      requires forall i :: start <= i < |s| ==> headers[i] == s[i]
      modifies `headers
      ensures |headers| == |s| && forall i :: 0 <= i < start ==> headers[i] == old(headers)[i]
      ensures forall i :: start <= i < |s| ==>
        headers[i] == if TouchedAfter(s, start, count, i) then Invalidated(s[i]) else s[i]
    {
      hide NonPatch;
      var k, remaining := start, count;
      assert s[start..start] == [];
      NoChain();
      while k < |headers|
        invariant start <= k <= |headers| == |s| && remaining >= 0
        invariant |NonPatch(s[start..k])| == count - remaining
        invariant forall i :: 0 <= i < start ==> headers[i] == old(headers)[i]
        invariant forall i :: k <= i < |s| ==> headers[i] == s[i]
        invariant forall i :: start <= i < k ==>
          headers[i] == if TouchedAfter(s, start, count, i) then Invalidated(s[i]) else s[i]
      {
        ChainBack(s[start..k], s[k]);
        assert s[start..k + 1] == s[start..k] + [s[k]];
        if !IsPatch(headers[k]) {
          if remaining <= 0 {
            BeyondAfter(s, start, k, count);
            break;
          }
          remaining := remaining - 1;
          headers := headers[k := Invalidated(headers[k])];
        }
        k := k + 1;
      }
    }

    // ----- Deleting -----

    method DeleteUpTo(to: int)
      requires Valid() && to > -1
      modifies `headers, `blocks
      ensures Valid() && headers == AfterDelete(old(headers), to)
      ensures (headers == old(headers) && blocks == old(blocks)) || ReadRecords(blocks) == AllRecords(headers)
    {
      hide IndexOk, AllRecords, ReadRecords, AfterDelete;
      var k := LowerBound(headers, to);
      AfterDeleteIs(headers, to);
      if k == |headers| {
        headers := [];
        SaveAll();
        return;
      }
      if headers[k].id == to {
        headers := headers[k + 1..];
        if headers != [] && headers[0].prev == to {
          headers := headers[0 := headers[0].(prev := -1)];
        }
        SaveAll();
      } else if k != 0 {
        headers := headers[k..];
        SaveAll();
      }
    }

    /** The three outcomes of a deletion. */
    static lemma AfterDeleteIs(s: seq<Header>, to: int)
      requires IndexOk(s)
      ensures IndexOk(AfterDelete(s, to))
      ensures var k := LowerBound(s, to);
        AfterDelete(s, to) ==
          if k == |s| then []
          else if s[k].id != to then s[k..]
          else Dropped(s, k + 1, k + 1 < |s| && s[k + 1].prev == to)
    {
      hide HeaderOk, IndexOk, LowerBound, Sorted;
      OkSorted(s);
      BoundNext(s, to);
      var k := LowerBound(s, to + 1);
      hide Dropped;
      DroppedIds(s, k, Has(s, to) && k < |s| && s[k].prev == to);
      DroppedNone(s, k);
    }

    static lemma OkSorted(s: seq<Header>)
      requires IndexOk(s)
      ensures Sorted(s)
    {
    }

    /** Without a cut, dropping is slicing. */
    static lemma DroppedNone(s: seq<Header>, k: nat)
      requires k <= |s|
      ensures Dropped(s, k, false) == s[k..] && (k == |s| ==> Dropped(s, k, false) == [])
    {
    }

    static lemma BoundNext(s: seq<Header>, t: int)
      requires Sorted(s)
      ensures var k := LowerBound(s, t);
        LowerBound(s, t + 1) == if k < |s| && s[k].id == t then k + 1 else k
    {
      var k := LowerBound(s, t);
      BoundUnique(s, t + 1, if k < |s| && s[k].id == t then k + 1 else k);
    }

    static lemma BoundUnique(s: seq<Header>, id: int, m: nat)
      requires m <= |s| && (forall i :: 0 <= i < m ==> s[i].id < id) && (m < |s| ==> s[m].id >= id)
      ensures LowerBound(s, id) == m
    {
    }

    predicate NeedOptimize()
      reads this
    {
      |headers| > INDEX_SIZE_NEED_OPTIMIZE || (loaded && headers != [] && 10 * merged >= |headers|)
    }

    method Optimize()
      requires Valid()
      modifies `headers, `merged, `blocks
      ensures Valid()
      ensures old(NeedOptimize()) ==>
        headers == AfterTrim(old(headers)) && merged == 0 && ReadRecords(blocks) == AllRecords(headers)
      ensures !old(NeedOptimize()) ==> headers == old(headers) && merged == old(merged) && blocks == old(blocks)
    {
      if !NeedOptimize() {
        return;
      }
      var toRemove := |headers| - MAX_INDEX_SIZE;
      if toRemove > 0 {
        DroppedIds(headers, toRemove, true);
        headers := headers[toRemove..];
        headers := headers[0 := headers[0].(prev := -1)];
      }
      merged := 0;
      SaveAll();
    }

    // ----- Hole search -----

    /** `skip_patches_forward` on reverse iterators. */
    method SkipPatchesBack(start: nat) returns (k: nat)
      requires start <= |headers|
      ensures k == SkipBack(headers, start)
    {
      k := start;
      while k != 0 && IsPatch(headers[k - 1])
        invariant k <= start && SkipBack(headers, k) == SkipBack(headers, start)
      {
        k := k - 1;
      }
    }

    method GetNextHole(from: int, hole: Hole, depth: int) returns (found: bool, out: Hole)
      requires Valid()
      ensures headers == [] ==> found && out == hole
      ensures headers != [] && from != -1 && headers[|headers| - 1].id < from ==>
        found && out == hole.(from := -1, to := headers[|headers| - 1].id)
      ensures headers != [] && from != -1 && headers[|headers| - 1].id >= from && !Has(headers, from) ==>
        !found && out == hole
      ensures headers != [] && (from == -1 || Has(headers, from)) ==>
        var v := NonPatch(headers[..SearchStart(headers, from)]);
        if v == [] then found && out == hole else ReportsNewestBreak(v, depth, hole, found, out)
    {
      out := hole;
      if headers == [] {
        return true, out;
      }
      var start := |headers|;
      if from != -1 {
        var last := headers[|headers| - 1].id;
        if last < from {
          return true, hole.(from := -1, to := last);
        }
        var at := LowerBound(headers, from);
        if headers[at].id != from {
          return false, out;
        }
        start := at + 1;
      }
      found, out := SearchBack(start, hole, depth);
    }

    /** The loop over the chain, newest header first. */
    method SearchBack(start: nat, hole: Hole, depth: int) returns (found: bool, out: Hole)
      requires start <= |headers|
      ensures var v := NonPatch(headers[..start]);
        if v == [] then found && out == hole else ReportsNewestBreak(v, depth, hole, found, out)
    {
      hide NonPatch, SkipBack, ReportsNewestBreak, Searching;
      ghost var v := NonPatch(headers[..start]);
      var k := SkipPatchesBack(start);
      StartSearching(headers, start);
      if k == 0 {
        return true, hole;
      }
      var current: nat := 0;
      while k != 0
        invariant 0 <= k <= |headers| && (k != 0 ==> Searching(headers, v, k, current))
        invariant current == 0 || depth == -1 || current < depth
        invariant k == 0 ==> ReportsNewestBreak(v, depth, hole, false, hole)
      {
        SearchStep(headers, v, k, current, depth, hole);
        current := current + 1;
        var h := headers[k - 1];
        var next := SkipPatchesBack(k - 1);
        if next == 0 {
          if h.prev != -1 {
            return true, hole.(from := h.id);
          }
          return false, hole;
        }
        if h.prev != headers[next - 1].id {
          return true, Hole(h.id, headers[next - 1].id, current);
        }
        if depth != -1 && current >= depth {
          return false, hole;
        }
        k := next;
      }
      return false, hole;
    }
  }

  /** The search stands behind the whole message that ends all but the newest
      `current` headers of the chain, and found no break among those. */
  ghost predicate Searching(s: seq<Header>, v: seq<Header>, k: nat, current: nat) {
    && 0 < k <= |s| && !IsPatch(s[k - 1])
    && current < |v| && NonPatch(s[..k]) == v[..|v| - current]
    && forall j :: |v| - current <= j < |v| ==> !Broken(v, j)
  }

  lemma StartSearching(s: seq<Header>, start: nat)
    requires start <= |s|
    ensures var k, v := SkipBack(s, start), NonPatch(s[..start]);
      (k == 0 <==> v == []) && (k > 0 ==> Searching(s, v, k, 0))
  {
    hide NonPatch, SkipBack, Broken;
    ChainBehind(s, start);
    var v := NonPatch(s[..start]);
    assert v[..|v|] == v;
  }

  lemma SearchStep(s: seq<Header>, v: seq<Header>, k: nat, current: nat, depth: int, hole: Hole)
    requires Searching(s, v, k, current) && (current == 0 || depth == -1 || current < depth)
    ensures SkipBack(s, k - 1) == 0 && s[k - 1].prev != -1 ==>
      ReportsNewestBreak(v, depth, hole, true, hole.(from := s[k - 1].id))
    ensures SkipBack(s, k - 1) == 0 && s[k - 1].prev == -1 ==> ReportsNewestBreak(v, depth, hole, false, hole)
    ensures var next := SkipBack(s, k - 1);
      && (next > 0 && s[k - 1].prev != s[next - 1].id ==>
           ReportsNewestBreak(v, depth, hole, true, Hole(s[k - 1].id, s[next - 1].id, current + 1)))
      && (next > 0 && s[k - 1].prev == s[next - 1].id ==> Searching(s, v, next, current + 1))
      && (next > 0 && s[k - 1].prev == s[next - 1].id && depth != -1 && current + 1 >= depth ==>
           ReportsNewestBreak(v, depth, hole, false, hole))
  {
    hide NonPatch, SkipBack, ReportsNewestBreak, Broken;
    var i := |v| - current - 1;
    ChainLink(s, k, v, i);
    if Broken(v, i) {
      BreakFound(v, depth, hole, i);
    } else if i == 0 || (depth != -1 && current + 1 >= depth) {
      NoBreakFound(v, depth, hole, i);
    }
  }

  lemma BreakFound(v: seq<Header>, depth: int, hole: Hole, i: nat)
    requires i < |v| && Broken(v, i) && forall j :: i < j < |v| ==> !Broken(v, j)
    requires depth == -1 || |v| - i - 1 < depth || i == |v| - 1
    ensures var out := if i == 0 then hole.(from := v[0].id) else Hole(v[i].id, v[i - 1].id, |v| - i);
      ReportsNewestBreak(v, depth, hole, true, out)
  {
    assert NewestBreak(v, depth, i);
  }

  lemma NoBreakFound(v: seq<Header>, depth: int, hole: Hole, i: nat)
    requires i < |v| && forall j :: i <= j < |v| ==> !Broken(v, j)
    requires i == 0 || (depth != -1 && |v| - i >= depth)
    ensures ReportsNewestBreak(v, depth, hole, false, hole)
  {
  }

  /** The chain below a position ends at the newest whole message below it. */
  lemma ChainBehind(s: seq<Header>, k: nat)
    requires k <= |s|
    ensures var next := SkipBack(s, k);
      && NonPatch(s[..next]) == NonPatch(s[..k])
      && (next == 0 <==> NonPatch(s[..k]) == [])
      && (next > 0 ==> var v := NonPatch(s[..k]); v[|v| - 1] == s[next - 1])
  {
    hide NonPatch, SkipBack;
    SkipBackKeepsChain(s, k);
    EmptyChain(s[..0]);
    var next := SkipBack(s, k);
    if next > 0 {
      ChainSnoc(s, next);
    }
  }

  /** A header of the chain and the one before it, seen from the header's position. */
  lemma ChainLink(s: seq<Header>, k: nat, v: seq<Header>, i: nat)
    requires 0 < k <= |s| && !IsPatch(s[k - 1]) && i < |v| && NonPatch(s[..k]) == v[..i + 1]
    ensures v[i] == s[k - 1]
    ensures var next := SkipBack(s, k - 1);
      && NonPatch(s[..next]) == v[..i] && (next == 0 <==> i == 0) && (next > 0 ==> v[i - 1] == s[next - 1])
      && (Broken(v, i) <==> s[k - 1].prev != if next == 0 then -1 else s[next - 1].id)
  {
    hide NonPatch, SkipBack;
    ChainSnoc(s, k);
    ChainBehind(s, k - 1);
    assert v[..i + 1][i] == v[i] && v[..i + 1][..i] == v[..i];
    assert i > 0 ==> v[..i][i - 1] == v[i - 1];
  }
}
