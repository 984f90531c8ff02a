/** The network log: files that rotate and are cleaned up (core/network_log.cpp). */
module NetworkLogs {

  const MAX_FILE_SIZE := 10_485_760
  const MAX_LOGS_SIZE := 5 * MAX_FILE_SIZE
  const MAX_LOGS_SIZE_FULL := 50 * MAX_FILE_SIZE

  datatype LogFile = LogFile(index: int, size: nat)

  /** The directory in the order of the file indices, the newest last. While a stream
      is open it writes to the newest file. `history` names the files this run created. */
  datatype State = State(files: seq<LogFile>, fileIndex: int, streaming: bool, history: seq<int>)

  function Sum(fs: seq<LogFile>): nat { if fs == [] then 0 else fs[0].size + Sum(fs[1..]) }

  predicate Ascending(fs: seq<LogFile>) { forall i, j :: 0 <= i < j < |fs| ==> fs[i].index < fs[j].index }

  lemma {:induction false} SumConcat(a: seq<LogFile>, b: seq<LogFile>)
    ensures Sum(a + b) == Sum(a) + Sum(b)
  {
    if a == [] {
      assert a + b == b;
    } else {
      assert (a + b)[1..] == a[1..] + b;
      SumConcat(a[1..], b);
    }
  }

  lemma {:induction false} SumSuffix(fs: seq<LogFile>, i: nat, j: nat)
    requires i <= j <= |fs|
    ensures Sum(fs[j..]) <= Sum(fs[i..])
    decreases j - i
  {
    if i < j {
      assert fs[i..][1..] == fs[i + 1..];
      SumSuffix(fs, i + 1, j);
    }
  }

  /** The index of a run's first file. */
  function NextIndex(fs: seq<LogFile>): int {
    if fs == [] then 0
    else
      var m := NextIndex(fs[..|fs| - 1]);
      if fs[|fs| - 1].index + 1 > m then fs[|fs| - 1].index + 1 else m
  }

  // ----- Cleaning -----

  /** The size of all files newer than one. */
  function NewerSize(fs: seq<LogFile>, i: nat): nat
    requires i < |fs|
  {
    Sum(fs[i + 1..])
  }

  /** Where the files that survive begin. */
  function FirstKept(fs: seq<LogFile>, maxSize: nat): (k: nat)
    ensures k <= |fs|
  {
    if fs == [] then 0
    else if Sum(fs[1..]) <= maxSize then 0
    else 1 + FirstKept(fs[1..], maxSize)
  }

  function Cleaned(fs: seq<LogFile>, maxSize: nat): seq<LogFile> { fs[FirstKept(fs, maxSize)..] }

  /** A file survives exactly when all newer files together are within the limit. */
  lemma {:induction false} KeptIffNewerFit(fs: seq<LogFile>, maxSize: nat, i: nat)
    requires i < |fs|
    ensures i >= FirstKept(fs, maxSize) <==> NewerSize(fs, i) <= maxSize
  {
    if Sum(fs[1..]) <= maxSize {
      SumSuffix(fs, 1, i + 1);
    } else if i > 0 {
      KeptIffNewerFit(fs[1..], maxSize, i - 1);
      assert fs[1..][i..] == fs[i + 1..];
    }
  }

  predicate EachAtMost(fs: seq<LogFile>, limit: nat) { forall i :: 0 <= i < |fs| ==> fs[i].size <= limit }

  /** What survives exceeds the limit by at most one file. */
  lemma {:induction false} CleanedSize(fs: seq<LogFile>, maxSize: nat, limit: nat)
    requires EachAtMost(fs, limit)
    ensures Sum(Cleaned(fs, maxSize)) <= maxSize + limit
  {
    if fs == [] {
    } else {
      if Sum(fs[1..]) <= maxSize {
        assert Cleaned(fs, maxSize) == fs;
      } else {
        CleanedSize(fs[1..], maxSize, limit);
        assert Cleaned(fs, maxSize) == Cleaned(fs[1..], maxSize);
      }
    }
  }

  // ----- Writing -----

  /** Opens the next file unless a stream is open. */
  function Opened(s: State): State {
    if s.streaming then s
    else
      var index := if s.fileIndex < 0 then NextIndex(s.files) else s.fileIndex + 1;
      State(s.files + [LogFile(index, 0)], index, true, s.history + [index])
  }

  function Grown(fs: seq<LogFile>, record: nat): seq<LogFile>
    requires fs != []
  {
    var n := |fs| - 1;
    fs[n := LogFile(fs[n].index, fs[n].size + record)]
  }

  function Write(s: State, record: nat, maxSize: nat): State
    requires Ok(s)
  {
    var o := Opened(s);
    var files := Grown(o.files, record);
    if files[|files| - 1].size > MAX_FILE_SIZE then o.(files := Cleaned(files, maxSize), streaming := false)
    else o.(files := files)
  }

  predicate Ok(s: State) {
    && Ascending(s.files)
    && (s.streaming ==> s.files != [] && s.files[|s.files| - 1].index == s.fileIndex >= 0)
    && (s.fileIndex >= 0 ==> forall i :: 0 <= i < |s.files| ==> s.files[i].index <= s.fileIndex)
    && (forall i :: 0 <= i < |s.files| ==> s.files[i].index >= 0)
    && (forall i, j :: 0 <= i < j < |s.history| ==> s.history[i] < s.history[j])
    && (forall i :: 0 <= i < |s.history| ==> s.history[i] <= s.fileIndex)
    && (s.fileIndex < 0 ==> s.history == [])
  }

  lemma {:induction false} NextIndexAbove(fs: seq<LogFile>)
    ensures NextIndex(fs) >= 0 && forall i :: 0 <= i < |fs| ==> fs[i].index < NextIndex(fs)
  {
    if fs == [] {
    } else {
      NextIndexAbove(fs[..|fs| - 1]);
    }
  }

  lemma OpenedOk(s: State)
    requires Ok(s)
    ensures Ok(Opened(s)) && Opened(s).streaming && Opened(s).files != []
    ensures !s.streaming ==> forall i :: 0 <= i < |s.files| ==> s.files[i].index < Opened(s).fileIndex
  {
    NextIndexAbove(s.files);
  }

  lemma CleanedOk(s: State, maxSize: nat)
    requires Ok(s)
    ensures Ok(s.(files := Cleaned(s.files, maxSize), streaming := false))
  {
  }

  lemma WriteOk(s: State, record: nat, maxSize: nat)
    requires Ok(s)
    ensures Ok(Write(s, record, maxSize))
  {
    hide Cleaned, NextIndex;
    OpenedOk(s);
    var o := Opened(s);
    var g := o.(files := Grown(o.files, record));
    assert Ok(g);
    CleanedOk(g, maxSize);
  }

  // ----- The bound -----

  /** Every file is at most a full file and one record; the open one is not yet full;
      the others together exceed the limit by at most one file. */
  predicate Within(s: State, maxSize: nat, largest: nat) {
    && EachAtMost(s.files, MAX_FILE_SIZE + largest)
    && (s.streaming && s.files != [] ==>
         && s.files[|s.files| - 1].size <= MAX_FILE_SIZE
         && Sum(s.files[..|s.files| - 1]) <= maxSize + MAX_FILE_SIZE + largest)
    && (!s.streaming ==> Sum(s.files) <= maxSize + MAX_FILE_SIZE + largest)
  }

  function Bound(maxSize: nat, largest: nat): nat { maxSize + 2 * (MAX_FILE_SIZE + largest) }

  /** The size of the directory after a record was written, before anything is removed. */
  function Peak(s: State, record: nat): nat { Sum(Opened(s).files) + record }

  lemma SumLast(fs: seq<LogFile>)
    requires fs != []
    ensures Sum(fs) == Sum(fs[..|fs| - 1]) + fs[|fs| - 1].size
  {
    var n := |fs| - 1;
    assert fs == fs[..n] + [fs[n]];
    SumConcat(fs[..n], [fs[n]]);
    assert [fs[n]][1..] == [];
    assert Sum([fs[n]]) == fs[n].size + Sum([]);
  }

  lemma OpenedWithin(s: State, maxSize: nat, largest: nat)
    requires Ok(s) && Within(s, maxSize, largest)
    ensures var o := Opened(s);
      && o.files != [] && o.streaming && Within(o, maxSize, largest)
  {
    hide Sum, NextIndex;
    var o := Opened(s);
    assert !s.streaming ==> o.files[..|o.files| - 1] == s.files;
  }

  lemma WriteWithin(s: State, record: nat, maxSize: nat, largest: nat)
    requires Ok(s) && Within(s, maxSize, largest) && record <= largest
    ensures Within(Write(s, record, maxSize), maxSize, largest)
    ensures Peak(s, record) <= Bound(maxSize, largest)
    ensures Sum(Write(s, record, maxSize).files) <= Bound(maxSize, largest)
  {
    hide Sum, Opened, FirstKept;
    OpenedOk(s);
    OpenedWithin(s, maxSize, largest);
    var o := Opened(s);
    var g := Grown(o.files, record);
    assert g[..|g| - 1] == o.files[..|g| - 1];
    SumLast(o.files);
    SumLast(g);
    CleanedSize(g, maxSize, MAX_FILE_SIZE + largest);
  }

  function Run(s: State, records: seq<nat>, maxSize: nat): (r: State)
    requires Ok(s)
    ensures Ok(r)
  {
    if records == [] then s
    else
      var p := Run(s, records[..|records| - 1], maxSize);
      WriteOk(p, records[|records| - 1], maxSize);
      Write(p, records[|records| - 1], maxSize)
  }

  const EMPTY := State([], -1, false, [])

  /** In every run from an empty directory the files never take more than the limit and
      twice a full file with the largest record, not even before a clean-up, and every
      new file has a larger index than all before it. */
  lemma {:induction false} RunBounded(records: seq<nat>, maxSize: nat, largest: nat)
    requires forall i :: 0 <= i < |records| ==> records[i] <= largest
    ensures var r := Run(EMPTY, records, maxSize);
      && Within(r, maxSize, largest) && Sum(r.files) <= Bound(maxSize, largest)
      && (forall i, j :: 0 <= i < j < |r.history| ==> r.history[i] < r.history[j])
      && (records != [] ==>
           Peak(Run(EMPTY, records[..|records| - 1], maxSize), records[|records| - 1]) <= Bound(maxSize, largest))
  {
    hide Within, Peak, Write;
    if records == [] {
      EmptyWithin(maxSize, largest);
    } else {
      var n := |records| - 1;
      RunBounded(records[..n], maxSize, largest);
      WriteWithin(Run(EMPTY, records[..n], maxSize), records[n], maxSize, largest);
    }
  }

  // ----- The numbers of the files -----

  /** The first file of a start is numbered one higher than the largest number there is, or zero. */
  lemma FirstNumber(s: State)
    requires Ok(s) && !s.streaming && s.fileIndex < 0
    ensures var n := Opened(s).fileIndex;
      if s.files == [] then n == 0
      else
        && (forall i :: 0 <= i < |s.files| ==> s.files[i].index < n)
        && exists i :: 0 <= i < |s.files| && n == s.files[i].index + 1
  {
    NextIndexReached(s.files);
    NextIndexAbove(s.files);
  }

  lemma {:induction false} NextIndexReached(fs: seq<LogFile>)
    requires forall i :: 0 <= i < |fs| ==> fs[i].index >= 0
    ensures if fs == [] then NextIndex(fs) == 0 else exists i :: 0 <= i < |fs| && NextIndex(fs) == fs[i].index + 1
  {
    if fs == [] {
    } else {
      var n := |fs| - 1;
      NextIndexReached(fs[..n]);
      if NextIndex(fs) != fs[n].index + 1 {
        var i :| 0 <= i < n && NextIndex(fs[..n]) == fs[..n][i].index + 1;
        assert NextIndex(fs) == fs[i].index + 1;
      }
    }
  }

  predicate Consecutive(s: State) {
    && s.fileIndex == |s.history| - 1 && (s.history == [] ==> s.files == [])
    && forall i :: 0 <= i < |s.history| ==> s.history[i] == i
  }

  /** In a run from an empty directory the files are numbered from zero on without a gap. */
  lemma {:induction false} RunConsecutive(records: seq<nat>, maxSize: nat)
    ensures var r := Run(EMPTY, records, maxSize);
      && r.fileIndex == |r.history| - 1 && (records != [] ==> r.history != [])
      && forall i :: 0 <= i < |r.history| ==> r.history[i] == i
  {
    RunNumbered(records, maxSize);
  }

  lemma {:induction false} RunNumbered(records: seq<nat>, maxSize: nat)
    ensures var r := Run(EMPTY, records, maxSize); Consecutive(r) && (records != [] ==> r.history != [])
  {
    hide Write;
    if records == [] {
    } else {
      var n := |records| - 1;
      RunNumbered(records[..n], maxSize);
      WriteNumbered(Run(EMPTY, records[..n], maxSize), records[n], maxSize);
    }
  }

  lemma WriteNumbered(s: State, record: nat, maxSize: nat)
    requires Ok(s) && Consecutive(s)
    ensures Consecutive(Write(s, record, maxSize)) && Write(s, record, maxSize).history != []
  {
    hide Cleaned;
    OpenedOk(s);
  }

  // ----- Nothing is lost before it must be -----

  function Bytes(records: seq<nat>): nat {
    if records == [] then 0 else Bytes(records[..|records| - 1]) + records[|records| - 1]
  }

  /** All files but the open one are full. */
  predicate OthersFull(s: State) {
    forall i :: 0 <= i < |s.files| - (if s.streaming then 1 else 0) ==> s.files[i].size > MAX_FILE_SIZE
  }

  lemma GrownSum(fs: seq<LogFile>, record: nat)
    requires fs != []
    ensures Sum(Grown(fs, record)) == Sum(fs) + record
  {
    hide Sum;
    SumLast(fs);
    var g := Grown(fs, record);
    SumLast(g);
    assert g[..|g| - 1] == fs[..|fs| - 1];
  }

  lemma OpenedSum(s: State)
    requires Ok(s)
    ensures Sum(Opened(s).files) == Sum(s.files)
  {
    if !s.streaming {
      var f := LogFile(Opened(s).fileIndex, 0);
      SumConcat(s.files, [f]);
      assert [f][1..] == [];
    }
  }

  lemma KeptWhole(fs: seq<LogFile>, maxSize: nat)
    requires Sum(fs) <= maxSize
    ensures Cleaned(fs, maxSize) == fs
  {
  }

  lemma OpenedFull(s: State)
    requires Ok(s) && OthersFull(s)
    ensures OthersFull(Opened(s))
  {
    hide NextIndex;
  }

  lemma GrownFull(o: State, record: nat, maxSize: nat)
    requires o.streaming && o.files != [] && OthersFull(o)
    ensures var g := Grown(o.files, record);
      if g[|g| - 1].size > MAX_FILE_SIZE then OthersFull(o.(files := Cleaned(g, maxSize), streaming := false))
      else OthersFull(o.(files := g))
  {
    hide FirstKept;
    var g := Grown(o.files, record);
    var c := Cleaned(g, maxSize);
    assert forall i :: 0 <= i < |c| ==> c[i] == g[i + |g| - |c|];
  }

  lemma WriteFull(s: State, record: nat, maxSize: nat)
    requires Ok(s) && OthersFull(s)
    ensures OthersFull(Write(s, record, maxSize))
    ensures Sum(s.files) + record <= maxSize ==> Sum(Write(s, record, maxSize).files) == Sum(s.files) + record
  {
    hide Sum, Cleaned, Opened, OthersFull, Ok;
    OpenedOk(s);
    OpenedSum(s);
    OpenedFull(s);
    var o, w := Opened(s), Write(s, record, maxSize);
    GrownSum(o.files, record);
    GrownFull(o, record, maxSize);
    var g := Grown(o.files, record);
    if g[|g| - 1].size > MAX_FILE_SIZE {
      assert w == o.(files := Cleaned(g, maxSize), streaming := false);
      if Sum(g) <= maxSize {
        KeptWhole(g, maxSize);
      }
    } else {
      assert w == o.(files := g);
    }
  }

  /** In every run a file is followed by another only when it is full, and as long as all records
      together are within the limit the files hold exactly their bytes. */
  lemma {:induction false} RunKeepsBytes(records: seq<nat>, maxSize: nat)
    ensures var r := Run(EMPTY, records, maxSize);
      OthersFull(r) && (Bytes(records) <= maxSize ==> Sum(r.files) == Bytes(records))
  {
    hide OthersFull, Write;
    if records == [] {
      EmptyWithin(maxSize, 0);
      EmptyFull();
    } else {
      var n := |records| - 1;
      RunKeepsBytes(records[..n], maxSize);
      WriteFull(Run(EMPTY, records[..n], maxSize), records[n], maxSize);
    }
  }

  lemma EmptyFull()
    ensures OthersFull(EMPTY)
  {
  }

  lemma EmptyWithin(maxSize: nat, largest: nat)
    ensures Within(EMPTY, maxSize, largest) && Sum(EMPTY.files) == 0
  {
  }

  // ----- The log -----

  class NetworkLog {
    var files: seq<LogFile>
    var fileIndex: int
    var streaming: bool
    var history: seq<int>
    const maxSize: nat

    ghost function Seen(): State
      reads this
    {
      State(files, fileIndex, streaming, history)
    }

    constructor (full: bool)
      ensures Seen() == EMPTY && maxSize == if full then MAX_LOGS_SIZE_FULL else MAX_LOGS_SIZE
    {
      files, fileIndex, streaming, history := [], -1, false, [];
      maxSize := if full then MAX_LOGS_SIZE_FULL else MAX_LOGS_SIZE;
    }

    method GetLogIndex() returns (next: int)
      ensures next == NextIndex(files)
    {
      var maxIndex := -1;
      for i := 0 to |files|
        invariant maxIndex + 1 == NextIndex(files[..i])
      {
        assert files[..i + 1][..i] == files[..i];
        if files[i].index > maxIndex {
          maxIndex := files[i].index;
        }
      }
      assert files[..|files|] == files;
      return maxIndex + 1;
    }

    /** Goes through the files from the newest on and removes those for which there is
        no room any more. */
    method CleanLogs()
      modifies `files
      ensures files == Cleaned(old(files), maxSize)
    {
      hide Sum, FirstKept;
      ghost var fs := files;
      var size := 0;
      var i := |files|;
      NoFiles(fs);
      ghost var first := |fs|;
      while i > 0
        invariant 0 <= i <= first <= |fs| && files == fs[..i] + fs[first..]
        invariant size == Sum(fs[first..]) && (i < first ==> size > maxSize)
        invariant forall j :: i <= j < |fs| ==> (j >= first <==> NewerSize(fs, j) <= maxSize)
      {
        i := i - 1;
        SumSuffix(fs, i + 1, first);
        assert fs[i..] == [fs[i]] + fs[i + 1..] && files[i] == fs[i];
        SumOne(fs, i);
        if size > maxSize {
          files := files[..i] + files[i + 1..];
        } else {
          size := size + files[i].size;
          first := i;
        }
      }
      FirstKeptIs(fs, maxSize, first);
    }

    static lemma NoFiles(fs: seq<LogFile>)
      ensures Sum(fs[|fs|..]) == 0 && fs[..|fs|] + fs[|fs|..] == fs
    {
    }

    static lemma SumOne(fs: seq<LogFile>, i: nat)
      requires i < |fs|
      ensures Sum(fs[i..]) == fs[i].size + Sum(fs[i + 1..])
    {
      assert fs[i..][1..] == fs[i + 1..];
    }

    static lemma FirstKeptIs(fs: seq<LogFile>, maxSize: nat, first: nat)
      requires first <= |fs| && forall j :: 0 <= j < |fs| ==> (j >= first <==> NewerSize(fs, j) <= maxSize)
      ensures FirstKept(fs, maxSize) == first
    {
      hide Sum, FirstKept, NewerSize;
      var k := FirstKept(fs, maxSize);
      if k < first {
        KeptIffNewerFit(fs, maxSize, k);
      }
      if first < k {
        KeptIffNewerFit(fs, maxSize, first);
      }
    }

    method WriteData(record: nat)
      requires Ok(Seen())
      modifies this
      ensures Seen() == Write(old(Seen()), record, maxSize) && Ok(Seen())
    {
      hide Cleaned;
      WriteOk(Seen(), record, maxSize);
      OpenedOk(Seen());
      if !streaming {
        if fileIndex < 0 {
          fileIndex := GetLogIndex();
        } else {
          fileIndex := fileIndex + 1;
        }
        files := files + [LogFile(fileIndex, 0)];
        streaming := true;
        history := history + [fileIndex];
      }
      var n := |files| - 1;
      files := files[n := LogFile(files[n].index, files[n].size + record)];
      if files[n].size > MAX_FILE_SIZE {
        streaming := false;
        CleanLogs();
      }
    }
  }
}
