/** utils/HistoryRecordUtil.java: the retention sweep that deletes the
    oldest recordings once the folder is too large, and the scan that turns
    recording file names into history records. A directory listing is a
    sequence of entries in the order the file system returns them; the
    folder-size ceiling is a parameter, and whether deleting a file
    succeeds is given by the set of names whose delete fails. */
module HistoryRecordUtil {
  import opened Wrappers
  import opened Text

  /** A java.io.File as the sweep and the scan see it. */
  datatype FileEntry = FileEntry(name: string, size: nat, isFile: bool)

  /** FileRecordHistory: the fields shown for one recording. */
  datatype FileRecord = FileRecord(timestamp: string, count: string, direction: string, username: string, sessionId: string)

  /** directory.listFiles(filter): the entries the filter accepts, in
      listing order. */
  function Select(listing: seq<FileEntry>, keep: FileEntry -> bool): (r: seq<FileEntry>)
    ensures |r| <= |listing|
    ensures forall k :: 0 <= k < |r| ==> keep(r[k])
  {
    if listing == [] then []
    else
      var init := Select(listing[..|listing| - 1], keep);
      var last := listing[|listing| - 1];
      assert listing == listing[..|listing| - 1] + [last];
      if keep(last) then init + [last] else init
  }

  /** The selected entries are exactly the listed ones the filter keeps. */
  lemma {:induction false} SelectMembers(listing: seq<FileEntry>, keep: FileEntry -> bool)
    ensures forall f :: f in Select(listing, keep) <==> f in listing && keep(f)
  {
    if listing != [] {
      assert listing == listing[..|listing| - 1] + [listing[|listing| - 1]];
      SelectMembers(listing[..|listing| - 1], keep);
    }
  }

  /** The sweep's filter: regular files named *.wav. */
  predicate IsWav(f: FileEntry) {
    f.isFile && EndsWith(f.name, ".wav")
  }

  /** The history scan's filter: regular files whose name contains
      "_voip_up_" and ends in ".wav". */
  predicate IsUplinkRecording(f: FileEntry) {
    f.isFile && Contains(f.name, "_voip_up_") && EndsWith(f.name, ".wav")
  }

  function TotalSize(files: seq<FileEntry>): nat {
    if files == [] then 0 else TotalSize(files[..|files| - 1]) + files[|files| - 1].size
  }

  /** name.split("=")[0] parsed as a Java integer in [lo, hi]; None when
      the parse (or the indexing) throws. */
  function LeadingNumber(name: string, lo: int, hi: int): (r: Option<int>)
    ensures r.Some? ==> lo <= r.value <= hi
  {
    var parts := JavaSplit(name, '=');
    if |parts| == 0 then None else ParseJavaInteger(parts[0], lo, hi)
  }

  /** The leading number is the parse of exactly the text before the
      first '=', whatever follows it; a name without '=' is parsed
      whole. */
  lemma LeadingNumberIsPrefix(prefix: string, rest: string, lo: int, hi: int)
    requires '=' !in prefix
    ensures LeadingNumber(prefix + "=" + rest, lo, hi) == ParseJavaInteger(prefix, lo, hi)
    ensures LeadingNumber(prefix, lo, hi) == ParseJavaInteger(prefix, lo, hi)
  {
    var name := prefix + "=" + rest;
    assert name[|prefix|] == '=';
    var all := SplitAll(name, '=');
    SplitAllFirst(prefix, '=', rest);
    var parts := JavaSplit(name, '=');
    assert parts == DropTrailingEmpty(all);
    if |parts| > 0 {
      assert parts[0] == all[0];
    } else {
      assert all[0] == "";
    }
  }

  /** A name that starts with a number printed by `%d` and then '=' has
      that number as its leading number, in any range that holds it. */
  lemma LeadingNumberOfDecimal(n: int, rest: string, lo: int, hi: int)
    requires lo <= n <= hi
    ensures LeadingNumber(IntToDecimal(n) + "=" + rest, lo, hi) == Some(n)
  {
    DecimalHasNoOther(n, '=');
    LeadingNumberIsPrefix(IntToDecimal(n), rest, lo, hi);
    ParseIntToDecimal(n, lo, hi);
  }

  /** The sweep's sort key: Integer.parseInt of the leading number. */
  function AgeKey(f: FileEntry): int {
    var n := LeadingNumber(f.name, IntMin, IntMax);
    if n.Some? then n.value else 0
  }

  /** A file named after an int timestamp printed by `%d` has that
      timestamp as its sort key, so sorting by AgeKey puts the oldest
      such file first. */
  lemma AgeKeyOfDecimal(n: int, rest: string, size: nat, isFile: bool)
    requires IntMin <= n <= IntMax
    ensures AgeKey(FileEntry(IntToDecimal(n) + "=" + rest, size, isFile)) == n
  {
    LeadingNumberOfDecimal(n, rest, IntMin, IntMax);
  }

  predicate SortedBy<T>(s: seq<T>, key: T -> int) {
    forall i, j :: 0 <= i < j < |s| ==> key(s[i]) <= key(s[j])
  }

  /** Inserts x after every element whose key is at most key(x). */
  function Insert<T>(s: seq<T>, x: T, key: T -> int): (r: seq<T>)
    ensures |r| == |s| + 1
  {
    if s == [] || key(s[|s| - 1]) <= key(x) then s + [x]
    else Insert(s[..|s| - 1], x, key) + [s[|s| - 1]]
  }

  /** A stable sort by key, standing for List.sort with a comparator that
      compares the keys. */
  function SortBy<T>(xs: seq<T>, key: T -> int): (r: seq<T>)
    ensures |r| == |xs|
  {
    if xs == [] then [] else Insert(SortBy(xs[..|xs| - 1], key), xs[|xs| - 1], key)
  }

  /** Insertion adds exactly x. */
  lemma {:induction false} InsertPermutes<T>(s: seq<T>, x: T, key: T -> int)
    ensures multiset(Insert(s, x, key)) == multiset(s) + multiset{x}
  {
    if s != [] && key(s[|s| - 1]) > key(x) {
      var init, last := s[..|s| - 1], s[|s| - 1];
      assert s == init + [last];
      InsertPermutes(init, x, key);
    }
  }

  function Max(a: int, b: int): int {
    if a < b then b else a
  }

  /** No key after insertion exceeds both key(x) and the old last key. */
  lemma {:induction false} InsertBounded<T>(s: seq<T>, x: T, key: T -> int)
    requires SortedBy(s, key)
    ensures forall k :: 0 <= k < |s| + 1 ==>
      key(Insert(s, x, key)[k]) <= (if s == [] then key(x) else Max(key(x), key(s[|s| - 1])))
  {
    if s != [] {
      var init, last := s[..|s| - 1], s[|s| - 1];
      var r := Insert(s, x, key);
      if key(last) <= key(x) {
        forall k | 0 <= k < |r|
          ensures key(r[k]) <= key(x)
        {
          if k < |s| {
            assert r[k] == s[k];
          }
        }
      } else {
        InsertBounded(init, x, key);
        forall k | 0 <= k < |r|
          ensures key(r[k]) <= key(last)
        {
          if k < |init| + 1 {
            assert r[k] == Insert(init, x, key)[k];
            if init != [] {
              assert key(init[|init| - 1]) <= key(last);
            }
          }
        }
      }
    }
  }

  /** Insertion keeps a sorted list sorted. */
  lemma {:induction false} InsertSorted<T>(s: seq<T>, x: T, key: T -> int)
    requires SortedBy(s, key)
    ensures SortedBy(Insert(s, x, key), key)
  {
    if s != [] && key(s[|s| - 1]) > key(x) {
      var init, last := s[..|s| - 1], s[|s| - 1];
      InsertSorted(init, x, key);
      InsertBounded(init, x, key);
      var r := Insert(s, x, key);
      var r0 := Insert(init, x, key);
      assert r == r0 + [last];
      forall i, j | 0 <= i < j < |r|
        ensures key(r[i]) <= key(r[j])
      {
        if j == |r| - 1 {
          assert r[i] == r0[i];
          if init != [] {
            assert key(init[|init| - 1]) <= key(last);
          }
        } else {
          assert r[i] == r0[i] && r[j] == r0[j];
        }
      }
    }
  }

  /** The sort yields a sorted permutation of its input. */
  lemma {:induction false} SortBySorted<T>(xs: seq<T>, key: T -> int)
    ensures SortedBy(SortBy(xs, key), key)
    ensures multiset(SortBy(xs, key)) == multiset(xs)
  {
    if xs != [] {
      var init, last := xs[..|xs| - 1], xs[|xs| - 1];
      assert xs == init + [last];
      SortBySorted(init, key);
      InsertSorted(SortBy(init, key), last, key);
      InsertPermutes(SortBy(init, key), last, key);
    }
  }

  /** The files among `files` whose delete succeeds. */
  function Deletable(files: seq<FileEntry>, locked: set<string>): seq<FileEntry>
  {
    if files == [] then []
    else
      var init, last := files[..|files| - 1], files[|files| - 1];
      assert files == init + [last];
      if last.name in locked then Deletable(init, locked) else Deletable(init, locked) + [last]
  }

  /** The deletable files are exactly the listed files whose name is not
      locked. */
  lemma {:induction false} DeletableMembers(files: seq<FileEntry>, locked: set<string>)
    ensures forall f :: f in Deletable(files, locked) <==> f in files && f.name !in locked
  {
    if files != [] {
      var init, last := files[..|files| - 1], files[|files| - 1];
      assert files == init + [last];
      DeletableMembers(init, locked);
    }
  }

  /** A bound on every file's key bounds every deletable file's key. */
  lemma {:induction false} DeletableBounded(files: seq<FileEntry>, locked: set<string>, bound: int)
    requires forall k :: 0 <= k < |files| ==> AgeKey(files[k]) <= bound
    ensures forall k :: 0 <= k < |Deletable(files, locked)| ==> AgeKey(Deletable(files, locked)[k]) <= bound
  {
    if files != [] {
      var init := files[..|files| - 1];
      assert forall k :: 0 <= k < |init| ==> init[k] == files[k];
      DeletableBounded(init, locked, bound);
    }
  }

  lemma {:induction false} DeletableSorted(files: seq<FileEntry>, locked: set<string>)
    requires SortedBy(files, AgeKey)
    ensures SortedBy(Deletable(files, locked), AgeKey)
  {
    if files != [] {
      var init, last := files[..|files| - 1], files[|files| - 1];
      assert forall k :: 0 <= k < |init| ==> init[k] == files[k];
      DeletableSorted(init, locked);
      DeletableBounded(init, locked, AgeKey(last));
    }
  }

  lemma {:induction false} DeletableAll(files: seq<FileEntry>)
    ensures Deletable(files, {}) == files
  {
    if files != [] {
      DeletableAll(files[..|files| - 1]);
    }
  }

  /** What the eviction loop leaves, with n = the number of files it
      looked at: it looked at a prefix of the sorted list, deleted the
      deletable files of that prefix, lowered the total by exactly their
      sizes, stopped once the total fell below the ceiling or the list ran
      out, and looked at each file only while the total was still at or
      above the ceiling. */
  ghost predicate SweepResult(sorted: seq<FileEntry>, total: int, maxBytes: int, locked: set<string>,
                              deleted: seq<FileEntry>, remaining: seq<FileEntry>, newTotal: int)
  {
    var n := |sorted| - |remaining|;
    && 0 <= n && remaining == sorted[n..]
    && deleted == Deletable(sorted[..n], locked)
    && newTotal == total - TotalSize(deleted)
    && (newTotal < maxBytes || remaining == [])
    && (n > 0 ==> total - TotalSize(Deletable(sorted[..n - 1], locked)) >= maxBytes)
  }

  /** Looking at one more file extends the deletable files by that file
      when its delete succeeds. */
  lemma DeletableStep(sorted: seq<FileEntry>, n: nat, locked: set<string>)
    requires n < |sorted|
    ensures Deletable(sorted[..n + 1], locked)
      == Deletable(sorted[..n], locked) + (if sorted[n].name in locked then [] else [sorted[n]])
  {
    assert sorted[..n + 1][..n] == sorted[..n];
  }

  lemma TotalSizeStep(files: seq<FileEntry>, f: FileEntry)
    ensures TotalSize(files + [f]) == TotalSize(files) + f.size
  {
    assert (files + [f])[..|files|] == files;
  }

  /** The eviction loop, with a failed delete taking the file out of the
      candidates (total unchanged) instead of retrying it for ever. */
  method Evict(sorted: seq<FileEntry>, total: int, maxBytes: int, locked: set<string>)
    returns (deleted: seq<FileEntry>, remaining: seq<FileEntry>, newTotal: int)
    ensures SweepResult(sorted, total, maxBytes, locked, deleted, remaining, newTotal)
  {
    deleted, remaining, newTotal := [], sorted, total;
    ghost var n := 0;
    while newTotal >= maxBytes && remaining != []
      invariant 0 <= n <= |sorted| && remaining == sorted[n..]
      invariant deleted == Deletable(sorted[..n], locked) && newTotal == total - TotalSize(deleted)
      invariant n > 0 ==> total - TotalSize(Deletable(sorted[..n - 1], locked)) >= maxBytes
      decreases |remaining|
    {
      var oldest := remaining[0];
      DeletableStep(sorted, n, locked);
      if oldest.name !in locked {
        TotalSizeStep(deleted, oldest);
        newTotal := newTotal - oldest.size;
        deleted := deleted + [oldest];
      }
      remaining := remaining[1..];
      n := n + 1;
    }
  }

  /** Files are deleted oldest first: in ascending order of their leading
      number. */
  lemma SweepDeletesOldestFirst(sorted: seq<FileEntry>, total: int, maxBytes: int, locked: set<string>,
                                deleted: seq<FileEntry>, remaining: seq<FileEntry>, newTotal: int)
    requires SortedBy(sorted, AgeKey)
    requires SweepResult(sorted, total, maxBytes, locked, deleted, remaining, newTotal)
    ensures SortedBy(deleted, AgeKey)
    ensures forall f :: f in deleted ==> f in sorted && f.name !in locked
  {
    var n := |sorted| - |remaining|;
    assert SortedBy(sorted[..n], AgeKey);
    DeletableSorted(sorted[..n], locked);
    DeletableMembers(sorted[..n], locked);
  }

  /** Nothing is deleted while the total is below the ceiling. */
  lemma SweepBelowCeiling(sorted: seq<FileEntry>, total: int, maxBytes: int, locked: set<string>,
                          deleted: seq<FileEntry>, remaining: seq<FileEntry>, newTotal: int)
    requires total < maxBytes
    requires SweepResult(sorted, total, maxBytes, locked, deleted, remaining, newTotal)
    ensures deleted == [] && remaining == sorted && newTotal == total
  {
    var n := |sorted| - |remaining|;
    if n > 0 {
      assert false;
    }
    assert sorted[..0] == [];
  }

  /** When every delete succeeds, the loop deletes the shortest prefix of
      the sorted list that brings the total below the ceiling, or all of
      it. */
  lemma {:induction false} SweepAllDeletable(sorted: seq<FileEntry>, total: int, maxBytes: int,
                          deleted: seq<FileEntry>, remaining: seq<FileEntry>, newTotal: int)
    requires SweepResult(sorted, total, maxBytes, {}, deleted, remaining, newTotal)
    ensures deleted + remaining == sorted
    ensures newTotal == total - TotalSize(deleted)
    ensures newTotal < maxBytes || deleted == sorted
    ensures |deleted| > 0 ==> total - TotalSize(deleted[..|deleted| - 1]) >= maxBytes
  {
    var n := |sorted| - |remaining|;
    SweptPrefix(sorted, n, deleted);
    if n > 0 {
      var shorter := sorted[..n - 1];
      DeletableAll(shorter);
      assert deleted[..|deleted| - 1] == shorter;
    }
  }

  /** Without locked files the deleted files are the whole prefix looked
      at. */
  lemma SweptPrefix(sorted: seq<FileEntry>, n: nat, deleted: seq<FileEntry>)
    requires n <= |sorted| && deleted == Deletable(sorted[..n], {})
    ensures deleted == sorted[..n] && deleted + sorted[n..] == sorted
  {
    DeletableAll(sorted[..n]);
    assert sorted[..n] + sorted[n..] == sorted;
  }

  /** The loop exactly as written: a failed delete leaves both the total
      and the list as they were. */
  function EvictStepAsWritten(files: seq<FileEntry>, total: int, locked: set<string>): (seq<FileEntry>, int)
    requires files != []
  {
    if files[0].name !in locked then (files[1..], total - files[0].size) else (files, total)
  }

  function IterateAsWritten(files: seq<FileEntry>, total: int, maxBytes: int, locked: set<string>, steps: nat): (seq<FileEntry>, int)
  {
    if steps == 0 || total < maxBytes || files == [] then (files, total)
    else
      var (f, t) := EvictStepAsWritten(files, total, locked);
      IterateAsWritten(f, t, maxBytes, locked, steps - 1)
  }

  /** As written, an oldest file that cannot be deleted while the total is
      at or above the ceiling stops the sweep for good: after any number
      of iterations the state is the same and the loop condition still
      holds. */
  lemma {:induction false} AsWrittenStuck(files: seq<FileEntry>, total: int, maxBytes: int, locked: set<string>, steps: nat)
    requires files != [] && files[0].name in locked && total >= maxBytes
    ensures IterateAsWritten(files, total, maxBytes, locked, steps) == (files, total)
  {
    if steps > 0 {
      AsWrittenStuck(files, total, maxBytes, locked, steps - 1);
    }
  }

  /** What the eviction loop as written leaves, with n = the number of
      files it removed: it deleted the first n files of the sorted list,
      all of them deletable, lowered the total by exactly their sizes and
      removed each while the total was at or above the ceiling. It ends
      once the total falls below the ceiling or the list runs out, and is
      `stuck` exactly when neither happened, which leaves an undeletable
      file at the head. */
  ghost predicate AsWrittenResult(sorted: seq<FileEntry>, total: int, maxBytes: int, locked: set<string>,
                                  stuck: bool, deleted: seq<FileEntry>, remaining: seq<FileEntry>, newTotal: int)
  {
    var n := |sorted| - |remaining|;
    && 0 <= n && remaining == sorted[n..] && deleted == sorted[..n]
    && (forall k :: 0 <= k < n ==> sorted[k].name !in locked)
    && newTotal == total - TotalSize(deleted)
    && (n > 0 ==> total - TotalSize(sorted[..n - 1]) >= maxBytes)
    && (stuck <==> newTotal >= maxBytes && remaining != [])
    && (stuck ==> remaining[0].name in locked)
  }

  /** The eviction loop as written. A failed delete changes nothing, so
      the loop would test the same file again for ever; the method stops
      there and reports `stuck`, and the iteration from that state is the
      same state after any number of steps. */
  method EvictAsWritten(sorted: seq<FileEntry>, total: int, maxBytes: int, locked: set<string>)
    returns (stuck: bool, deleted: seq<FileEntry>, remaining: seq<FileEntry>, newTotal: int)
    ensures AsWrittenResult(sorted, total, maxBytes, locked, stuck, deleted, remaining, newTotal)
    ensures stuck ==> forall steps: nat :: IterateAsWritten(remaining, newTotal, maxBytes, locked, steps) == (remaining, newTotal)
  {
    stuck, deleted, remaining, newTotal := false, [], sorted, total;
    ghost var n := 0;
    while newTotal >= maxBytes && remaining != []
      invariant 0 <= n <= |sorted| && remaining == sorted[n..] && deleted == sorted[..n]
      invariant forall k :: 0 <= k < n ==> sorted[k].name !in locked
      invariant newTotal == total - TotalSize(deleted)
      invariant n > 0 ==> total - TotalSize(sorted[..n - 1]) >= maxBytes
      decreases |remaining|
    {
      var oldestFile := remaining[0];
      if oldestFile.name in locked {
        stuck := true;
        forall steps: nat
          ensures IterateAsWritten(remaining, newTotal, maxBytes, locked, steps) == (remaining, newTotal)
        {
          AsWrittenStuck(remaining, newTotal, maxBytes, locked, steps);
        }
        return;
      }
      TotalSizeStep(deleted, oldestFile);
      assert sorted[..n + 1] == deleted + [oldestFile];
      newTotal := newTotal - oldestFile.size;
      deleted := deleted + [oldestFile];
      remaining := remaining[1..];
      n := n + 1;
    }
  }

  /** With every delete succeeding, the loop as written never gets stuck
      and leaves what the corrected loop leaves. */
  lemma AsWrittenMatchesCorrectedWithoutLocks(sorted: seq<FileEntry>, total: int, maxBytes: int,
                                              stuck: bool, deleted: seq<FileEntry>, remaining: seq<FileEntry>, newTotal: int)
    requires AsWrittenResult(sorted, total, maxBytes, {}, stuck, deleted, remaining, newTotal)
    ensures !stuck
    ensures SweepResult(sorted, total, maxBytes, {}, deleted, remaining, newTotal)
  {
    var n := |sorted| - |remaining|;
    DeletableAll(sorted[..n]);
    if n > 0 {
      DeletableAll(sorted[..n - 1]);
    }
  }

  /** The corrected loop always finishes, and an undeletable oldest file
      no longer blocks the files after it. */
  lemma CorrectedPassesLockedFile(old1: FileEntry, old2: FileEntry, maxBytes: int)
    requires old1.name != old2.name && old2.size > 0 && maxBytes == old1.size + old2.size
    ensures SweepResult([old1, old2], old1.size + old2.size, maxBytes, {old1.name}, [old2], [], old1.size)
  {
    var sorted := [old1, old2];
    var locked := {old1.name};
    assert sorted[2..] == [];
    assert sorted[..2] == sorted;
    assert sorted[..1] == [old1];
    assert sorted[..|sorted| - 1] == [old1];
    assert [old1][..0] == [];
    assert Deletable([], locked) == [];
    assert Deletable([old1], locked) == [];
    assert Deletable(sorted, locked) == [old2];
    assert [old2][..0] == [];
    assert TotalSize([old2]) == old2.size;
  }

  /** One pass of the cleanup thread. */
  datatype Pass =
    | DirectoryMissing                 // returns from the thread
    | NoWavFiles                       // returns from the thread
    | Aborted                          // a file name did not parse; caught, retried next period
    | Swept(deleted: seq<FileEntry>, remaining: seq<FileEntry>, total: int)
    | Stuck(deleted: seq<FileEntry>, remaining: seq<FileEntry>, total: int)
                                       // the eviction loop spins on an undeletable file; the thread never goes on

  /** One iteration of the cleanup thread's loop. */
  method CleanupPass(dirExists: bool, listing: seq<FileEntry>, maxBytes: int, locked: set<string>) returns (p: Pass)
    ensures !dirExists ==> p == DirectoryMissing
    ensures dirExists && Select(listing, IsWav) == [] ==> p == NoWavFiles
    ensures var wav := Select(listing, IsWav);
      dirExists && wav != [] ==>
        if TotalSize(wav) < maxBytes then p == Swept([], wav, TotalSize(wav))
        else if |wav| >= 2 && exists k :: 0 <= k < |wav| && LeadingNumber(wav[k].name, IntMin, IntMax).None? then p == Aborted
        else (p.Swept? || p.Stuck?) && AsWrittenResult(SortBy(wav, AgeKey), TotalSize(wav), maxBytes, locked, p.Stuck?, p.deleted, p.remaining, p.total)
  {
    if !dirExists {
      return DirectoryMissing;
    }
    var files := Select(listing, IsWav);
    if files == [] {
      return NoWavFiles;
    }
    var wavFiles: seq<FileEntry> := [];
    var currentTotalSize := 0;
    for i := 0 to |files|
      invariant wavFiles == files[..i] && currentTotalSize == TotalSize(wavFiles)
    {
      assert files[..i + 1] == files[..i] + [files[i]];
      currentTotalSize := currentTotalSize + files[i].size;
      wavFiles := wavFiles + [files[i]];
    }
    assert wavFiles == files;
    if currentTotalSize < maxBytes {
      return Swept([], wavFiles, currentTotalSize);
    }
    if |wavFiles| >= 2 && exists k :: 0 <= k < |wavFiles| && LeadingNumber(wavFiles[k].name, IntMin, IntMax).None? {
      return Aborted;
    }
    var sorted := SortBy(wavFiles, AgeKey);
    var stuck, deleted, remaining, total := EvictAsWritten(sorted, currentTotalSize, maxBytes, locked);
    p := if stuck then Stuck(deleted, remaining, total) else Swept(deleted, remaining, total);
  }

  // ---------------------------------------------------------------- history

  /** getAllFileRecords' outcome: the records, or the NumberFormatException
      from the sort comparator, which is not caught. */
  datatype History = Records(records: seq<FileRecord>) | Crashed

  /** The history cap. */
  const MaxRecords := 50

  /** The sort key of the scan: Long.parseLong of the leading number. */
  function TimeKey(name: string): int {
    var n := LeadingNumber(name, LongMin, LongMax);
    if n.Some? then n.value else 0
  }

  /** The key that puts the newest recording first. */
  function NewestKey(name: string): int {
    -TimeKey(name)
  }

  /** The record a name yields: parts 0, 1, 3, 4 and 5 of its "="-split
      when it has at least six parts. A five-part name passes the length
      check but reading part 5 throws, and the exception is caught; fewer
      parts fail the check. Either way no record. */
  function RecordOf(name: string): (r: Option<FileRecord>)
    ensures r.Some? <==> |JavaSplit(name, '=')| >= 6
  {
    var parts := JavaSplit(name, '=');
    if |parts| >= 5 then
      if |parts| >= 6 then Some(FileRecord(parts[0], parts[1], parts[3], parts[4], parts[5])) else None
    else None
  }

  /** The records of `names`, in order, skipping the names that yield
      none. */
  function RecordsOf(names: seq<string>): (r: seq<FileRecord>)
    ensures |r| <= |names|
  {
    if names == [] then []
    else
      var rec := RecordOf(names[|names| - 1]);
      RecordsOf(names[..|names| - 1]) + (if rec.Some? then [rec.value] else [])
  }

  /** Scanning one more name appends its record, if it has one. */
  lemma RecordsOfSnoc(names: seq<string>, name: string)
    ensures RecordsOf(names + [name])
      == RecordsOf(names) + (if RecordOf(name).Some? then [RecordOf(name).value] else [])
  {
    assert (names + [name])[..|names|] == names;
  }

  /** The recording file name layout
      timestamp=count=_voip_up_=direction=username=sessionId=.wav. */
  function RecordingName(r: FileRecord): string
    requires PlainRecord(r)
  {
    Join([r.timestamp, r.count, "_voip_up_", r.direction, r.username, r.sessionId, ".wav"], '=')
  }

  /** A name in the recording layout gives back the record it was made
      from. */
  lemma RecordOfRecordingName(r: FileRecord)
    requires PlainRecord(r)
    ensures RecordOf(RecordingName(r)) == Some(r)
  {
    var parts := [r.timestamp, r.count, "_voip_up_", r.direction, r.username, r.sessionId, ".wav"];
    assert forall k :: 0 <= k < 5 ==> parts[[0, 1, 3, 4, 5][k]] == [r.timestamp, r.count, r.direction, r.username, r.sessionId][k];
    forall k | 0 <= k < |parts|
      ensures '=' !in parts[k]
    {
      if k == 0 || k == 1 || k == 3 || k == 4 || k == 5 {
        assert parts[k] <= r.timestamp + r.count + r.direction + r.username + r.sessionId || parts[k] in [r.timestamp, r.count, r.direction, r.username, r.sessionId];
      }
    }
    JavaSplitJoin(parts, '=');
  }

  /** The sort as written: its comparator parses the first argument twice
      and so always answers 0. The list keeps its order, and TimSort hands
      every element but the first to the comparator as its first argument
      (while finding the initial run), so the sort throws exactly when one
      of those names has no parsable leading number. */
  function SortAsWritten(names: seq<string>): (r: Option<seq<string>>)
    ensures r.Some? ==> r.value == names
  {
    if exists k :: 1 <= k < |names| && LeadingNumber(names[k], LongMin, LongMax).None? then None
    else Some(names)
  }

  /** The evidently intended sort: newest (largest leading number) first,
      throwing as TimSort would when some name does not parse. */
  function SortNewestFirst(names: seq<string>): Option<seq<string>> {
    if |names| >= 2 && exists k :: 0 <= k < |names| && LeadingNumber(names[k], LongMin, LongMax).None? then None
    else Some(SortBy(names, NewestKey))
  }

  /** The corrected sort yields the names newest first, each name kept as
      often as it was listed. */
  lemma NewestFirstSorted(names: seq<string>)
    ensures var r := SortNewestFirst(names);
      r.Some? ==> SortedBy(r.value, NewestKey) && multiset(r.value) == multiset(names)
  {
    SortBySorted(names, NewestKey);
  }

  /** The leading numbers of the two example names. */
  lemma ExampleKeys()
    ensures LeadingNumber("1=a", LongMin, LongMax) == Some(1)
    ensures LeadingNumber("2=b", LongMin, LongMax) == Some(2)
  {
    SplitAround('1', 'a');
    SplitAround('2', 'b');
    assert "1=a" == ['1', '=', 'a'] && "2=b" == ['2', '=', 'b'];
    assert ParseJavaInteger("1", LongMin, LongMax) == Some(1);
    assert ParseJavaInteger("2", LongMin, LongMax) == Some(2);
  }

  /** With the sort as written the history keeps the first 50 names in
      listing order, not the 50 newest: a newer recording listed after an
      older one stays after it. */
  lemma AsWrittenKeepsListingOrder()
    ensures var names := ["1=a", "2=b"];
      SortAsWritten(names) == Some(names) && TimeKey(names[0]) < TimeKey(names[1])
  {
    ExampleKeys();
    var names := ["1=a", "2=b"];
    assert forall k :: 0 <= k < |names| ==> LeadingNumber(names[k], LongMin, LongMax).Some?;
  }

  /** Sorting two elements whose keys are out of order swaps them. */
  lemma SortSwapsTwo<T>(a: T, b: T, key: T -> int)
    requires key(b) < key(a)
    ensures SortBy([a, b], key) == [b, a]
  {
    assert [a, b][..1] == [a] && [a][..0] == [];
    assert SortBy([a], key) == [a];
    assert [a][..|[a]| - 1] == [];
    assert Insert([a], b, key) == Insert([], b, key) + [a];
  }

  /** Sorted newest first, those two names change places. */
  lemma NewestFirstReorders()
    ensures var names := ["1=a", "2=b"];
      SortNewestFirst(names) == Some(["2=b", "1=a"])
  {
    ExampleKeys();
    var names := ["1=a", "2=b"];
    assert forall k :: 0 <= k < |names| ==> LeadingNumber(names[k], LongMin, LongMax).Some?;
    SortSwapsTwo("1=a", "2=b", NewestKey);
  }

  /** Splitting "x=y" at '=' gives "x" and "y". */
  lemma SplitAround(x: char, y: char)
    requires x != '=' && y != '='
    ensures JavaSplit([x, '=', y], '=') == [[x], [y]]
  {
    var s := [x, '=', y];
    var e: string := [];
    assert SplitAll(e, '=') == [e];
    var ys: string := [y];
    assert ys[0] == y && ys[1..] == e;
    var r1 := SplitAll(ys, '=');
    assert r1 == [[ys[0]] + SplitAll(ys[1..], '=')[0]] + SplitAll(ys[1..], '=')[1..];
    assert [ys[0]] + e == ys;
    assert [e][1..] == [];
    assert r1 == [ys];
    assert s[1..] == ['=', y] && s[1..][1..] == ys;
    var r2 := SplitAll(['=', y], '=');
    assert r2 == [e, ys];
    var r3 := SplitAll(s, '=');
    assert r3 == [[x] + e] + [ys];
    assert [x] + e == [x];
    assert r3 == [[x], [y]];
  }

  /** getAllFileRecords: `dirOk` is whether the voip download folder exists
      and is a directory. The sort as written keeps the listing order, so
      the history shows the first 50 recordings in listing order; it
      crashes when a name after the first has no parsable leading number. */
  method GetAllFileRecords(dirOk: bool, listing: seq<FileEntry>) returns (h: History)
    ensures !dirOk ==> h == Records([])
    ensures dirOk ==>
      var names := Names(Select(listing, IsUplinkRecording));
      var sorted := SortAsWritten(names);
      if sorted.None? then h == Crashed
      else h == Records(RecordsOf(sorted.value[..Min(|names|, MaxRecords)]))
    ensures var names := Names(Select(listing, IsUplinkRecording));
      h == Crashed <==> dirOk && exists k :: 1 <= k < |names| && LeadingNumber(names[k], LongMin, LongMax).None?
  {
    if !dirOk {
      return Records([]);
    }
    var files := Select(listing, IsUplinkRecording);
    if files == [] {
      return Records([]);
    }
    var fileNames := Names(files);
    var sorted := SortAsWritten(fileNames);
    if sorted.None? {
      return Crashed;
    }
    fileNames := sorted.value[..Min(|fileNames|, MaxRecords)];
    var records := ScanRecords(fileNames);
    h := Records(records);
  }

  /** The loop of getAllFileRecords over the kept names: split each name
      on '=' and keep a record for those with at least six parts. */
  method ScanRecords(fileNames: seq<string>) returns (records: seq<FileRecord>)
    ensures records == RecordsOf(fileNames)
  {
    records := [];
    for i := 0 to |fileNames|
      invariant records == RecordsOf(fileNames[..i])
    {
      assert fileNames[..i + 1] == fileNames[..i] + [fileNames[i]];
      RecordsOfSnoc(fileNames[..i], fileNames[i]);
      var parts := JavaSplit(fileNames[i], '=');
      if |parts| >= 5 {
        if |parts| >= 6 {
          records := records + [FileRecord(parts[0], parts[1], parts[3], parts[4], parts[5])];
        }
      }
    }
    assert fileNames[..|fileNames|] == fileNames;
  }

  function Names(files: seq<FileEntry>): (names: seq<string>)
    ensures |names| == |files|
    ensures forall k :: 0 <= k < |files| ==> names[k] == files[k].name
  {
    seq(|files|, k requires 0 <= k < |files| => files[k].name)
  }

  function Min(a: int, b: int): int {
    if a < b then a else b
  }

  /** A field of a recording name: free of the '=' separator. */
  predicate PlainRecord(r: FileRecord) {
    '=' !in r.timestamp + r.count + r.direction + r.username + r.sessionId
  }

  /** A recording whose timestamp field is a long printed by `%d` has
      that timestamp as the history scan's sort key. */
  lemma TimeKeyOfRecordingName(r: FileRecord, t: int)
    requires PlainRecord(r) && LongMin <= t <= LongMax && r.timestamp == IntToDecimal(t)
    ensures TimeKey(RecordingName(r)) == t
  {
    var tail := [r.count, "_voip_up_", r.direction, r.username, r.sessionId, ".wav"];
    var parts := [r.timestamp] + tail;
    assert parts[1..] == tail;
    assert RecordingName(r) == r.timestamp + "=" + Join(tail, '=');
    LeadingNumberOfDecimal(t, Join(tail, '='), LongMin, LongMax);
  }

  /** The names of recordings in the standard layout. */
  function RecordingNames(recs: seq<FileRecord>): (names: seq<string>)
    requires forall k :: 0 <= k < |recs| ==> PlainRecord(recs[k])
    ensures |names| == |recs|
  {
    if recs == [] then [] else RecordingNames(recs[..|recs| - 1]) + [RecordingName(recs[|recs| - 1])]
  }

  /** Scanning names in the standard layout gives back exactly the
      records they were made from, in order. */
  lemma {:induction false} RecordsOfRecordingNames(recs: seq<FileRecord>)
    requires forall k :: 0 <= k < |recs| ==> PlainRecord(recs[k])
    ensures RecordsOf(RecordingNames(recs)) == recs
  {
    if recs != [] {
      var init, last := recs[..|recs| - 1], recs[|recs| - 1];
      assert recs == init + [last];
      RecordsOfRecordingNames(init);
      var names, name := RecordingNames(init), RecordingName(last);
      assert RecordingNames(recs) == names + [name];
      assert RecordOf(name) == Some(last) by {
        RecordOfRecordingName(last);
      }
      RecordsOfSnoc(names, name);
    }
  }
}
