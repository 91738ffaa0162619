/**
 The audit log: records are appended to a live file which, when the next record would not fit,
 becomes backup 1 while every backup moves up by one and the oldest is deleted.
 */
module AuditLog {
  import opened Wire

  /** The files by number, 0 for the live one, each as the records appended to it. */
  type Files = map<nat, seq<Bytes>>

  function Size(records: seq<Bytes>): nat {
    |Flatten(records)|
  }

  predicate NeedsRotation(files: Files, maxBytes: nat, record: Bytes) {
    0 in files && Size(files[0]) + |record| > maxBytes
  }

  /** Every number that may be taken before or after a move by one. */
  function Numbers(files: Files): set<nat> {
    files.Keys + set i | i in files.Keys :: i + 1
  }

  /** All files moved up by one, whatever gaps there are between them; those beyond the backups stay. */
  function Shifted(files: Files, maxBackups: nat): Files {
    map j | j in Numbers(files) && (if 1 <= j <= maxBackups then j - 1 in files else j > maxBackups && j in files)
      :: if j <= maxBackups then files[j - 1] else files[j]
  }

  function Rotated(files: Files, maxBackups: nat, maxBytes: nat, record: Bytes): Files {
    if NeedsRotation(files, maxBytes, record) then Shifted(files, maxBackups) else files
  }

  function Appended(files: Files, record: Bytes): Files {
    files[0 := (if 0 in files then files[0] else []) + [record]]
  }

  function Logged(files: Files, maxBackups: nat, maxBytes: nat, record: Bytes): Files {
    Appended(Rotated(files, maxBackups, maxBytes, record), record)
  }

  /** The backups above index have moved, and the place after index is free. */
  function PartlyShifted(files: Files, maxBackups: nat, index: nat): Files {
    map j | j in Numbers(files) && j != index + 1
            && (if index + 2 <= j <= maxBackups then j - 1 in files else j in files)
      :: if index + 2 <= j <= maxBackups then files[j - 1] else files[j]
  }

  class JsonlAuditLogger {
    var files: Files
    const maxFileBytes: nat
    const maxBackups: nat

    constructor (maxFileBytes: nat, maxBackups: nat)
      requires maxFileBytes >= 1024 && maxBackups >= 1
      ensures files == map[] && this.maxFileBytes == maxFileBytes && this.maxBackups == maxBackups
    {
      files := map[];
      this.maxFileBytes, this.maxBackups := maxFileBytes, maxBackups;
    }

    /** Renaming replaces what had the new name. */
    method Rename(source: nat, target: nat)
      requires source in files && source != target
      modifies this`files
      ensures files == old(files)[target := old(files)[source]] - {source}
    {
      files := files[target := files[source]] - {source};
    }

    method MoveUp(index: nat)
      modifies this`files
      ensures files == if index in old(files) then old(files)[index + 1 := old(files)[index]] - {index} else old(files)
    {
      if index in files {
        Rename(index, index + 1);
      }
    }

    method RotateIfNeeded(record: Bytes)
      requires maxBackups >= 1
      modifies this`files
      ensures files == Rotated(old(files), maxBackups, maxFileBytes, record)
    {
      if 0 in files && Size(files[0]) + |record| > maxFileBytes {
        Rotate();
      }
    }

    method Rotate()
      requires maxBackups >= 1 && 0 in files
      modifies this`files
      ensures files == Shifted(old(files), maxBackups)
    {
      ghost var before := files;
      FirstShift(before, maxBackups);
      files := files - {maxBackups};
      for index := maxBackups downto 1
        invariant files == PartlyShifted(before, maxBackups, index - 1)
      {
        NextShift(before, maxBackups, index);
        MoveUp(index);
      }
      LastShift(before, maxBackups);
      Rename(0, 1);
    }

    method Append(record: Bytes)
      requires maxBackups >= 1
      modifies this`files
      ensures files == Logged(old(files), maxBackups, maxFileBytes, record)
    {
      RotateIfNeeded(record);
      files := files[0 := (if 0 in files then files[0] else []) + [record]];
    }
  }

  lemma FirstShift(files: Files, maxBackups: nat)
    requires maxBackups >= 1
    ensures files - {maxBackups} == PartlyShifted(files, maxBackups, maxBackups - 1)
  {
  }

  lemma NextShift(files: Files, maxBackups: nat, index: nat)
    requires 0 < index < maxBackups
    ensures var now := PartlyShifted(files, maxBackups, index);
      PartlyShifted(files, maxBackups, index - 1)
      == if index in now then now[index + 1 := now[index]] - {index} else now
  {
  }

  lemma LastShift(files: Files, maxBackups: nat)
    requires maxBackups >= 1 && 0 in files
    ensures var now := PartlyShifted(files, maxBackups, 0);
      0 in now && now[1 := now[0]] - {0} == Shifted(files, maxBackups)
  {
  }

  // ---------------------------------------------------------------------------
  // A bounded queue of files
  // ---------------------------------------------------------------------------

  /** The files from oldest to newest. */
  type Queue = seq<seq<Bytes>>

  function Newest(q: Queue): seq<Bytes>
    requires q != []
  {
    q[|q| - 1]
  }

  /** The place of the file with number i. */
  function Place(q: Queue, i: nat): int {
    |q| - 1 - i
  }

  function FilesOf(q: Queue): Files {
    map i: nat | i < |q| && Place(q, i) >= 0 :: q[Place(q, i)]
  }

  /** A new file behind the others; the oldest goes when there are enough backups already. */
  function Enqueued(q: Queue, maxBackups: nat, record: Bytes): Queue {
    (if |q| > maxBackups then q[1..] else q) + [[record]]
  }

  function Push(q: Queue, maxBackups: nat, maxBytes: nat, record: Bytes): Queue {
    if q == [] then [[record]]
    else if Size(Newest(q)) + |record| > maxBytes then Enqueued(q, maxBackups, record)
    else q[..|q| - 1] + [Newest(q) + [record]]
  }

  /** What the files do is what the queue does. */
  lemma LoggingIsPushing(q: Queue, maxBackups: nat, maxBytes: nat, record: Bytes)
    requires |q| <= maxBackups + 1 && maxBackups >= 1
    ensures Logged(FilesOf(q), maxBackups, maxBytes, record) == FilesOf(Push(q, maxBackups, maxBytes, record))
  {
    FilesAt(q);
    if q != [] && Size(Newest(q)) + |record| > maxBytes {
      RotatingIsEnqueuing(q, maxBackups, record);
    } else {
      AppendingIsPushing(q, record);
    }
  }

  lemma AppendingIsPushing(q: Queue, record: Bytes)
    ensures Appended(FilesOf(q), record)
         == FilesOf(if q == [] then [[record]] else q[..|q| - 1] + [Newest(q) + [record]])
  {
    var next := if q == [] then [[record]] else q[..|q| - 1] + [Newest(q) + [record]];
    FilesAt(q);
    FilesAt(next);
    SameFiles(Appended(FilesOf(q), record), FilesOf(next));
  }

  lemma FilesAt(q: Queue)
    ensures forall i: nat :: i in FilesOf(q) <==> i < |q|
    ensures forall i: nat :: i < |q| ==> FilesOf(q)[i] == q[|q| - 1 - i]
  {
    assert forall i: nat :: i < |q| ==> Place(q, i) >= 0;
  }

  lemma SameFiles(a: Files, b: Files)
    requires forall i: nat :: i in a <==> i in b
    requires forall i: nat :: i in a ==> a[i] == b[i]
    ensures a == b
  {
    assert a.Keys == b.Keys;
  }

  lemma ShiftedAt(q: Queue, maxBackups: nat)
    requires |q| <= maxBackups + 1
    ensures var shifted := Shifted(FilesOf(q), maxBackups);
      && (forall j: nat :: j in shifted <==> 1 <= j <= |q| && j <= maxBackups)
      && (forall j: nat :: j in shifted ==> shifted[j] == q[|q| - j])
  {
    FilesAt(q);
    forall j: nat | 1 <= j <= |q| && j <= maxBackups
      ensures j in Shifted(FilesOf(q), maxBackups)
    {
      assert j - 1 in FilesOf(q) && (j - 1) + 1 in Numbers(FilesOf(q));
    }
  }

  lemma ShiftedIsEnqueued(shifted: Files, q: Queue, maxBackups: nat, record: Bytes)
    requires 0 < |q| <= maxBackups + 1
    requires forall j: nat :: j in shifted <==> 1 <= j <= |q| && j <= maxBackups
    requires forall j: nat :: j in shifted ==> shifted[j] == q[|q| - j]
    ensures Appended(shifted, record) == FilesOf(Enqueued(q, maxBackups, record))
  {
    var next := Enqueued(q, maxBackups, record);
    FilesAt(next);
    SameFiles(Appended(shifted, record), FilesOf(next));
  }

  lemma RotatingIsEnqueuing(q: Queue, maxBackups: nat, record: Bytes)
    requires 0 < |q| <= maxBackups + 1
    ensures Appended(Shifted(FilesOf(q), maxBackups), record) == FilesOf(Enqueued(q, maxBackups, record))
  {
    var next := Enqueued(q, maxBackups, record);
    ShiftedAt(q, maxBackups);
    ShiftedIsEnqueued(Shifted(FilesOf(q), maxBackups), q, maxBackups, record);
  }

  /**
   A file over the limit holds one record; each file was left only because the first record of the next did not fit.
   */
  predicate IsQueue(q: Queue, maxBackups: nat, maxBytes: nat) {
    && |q| <= maxBackups + 1
    && (forall i :: 0 <= i < |q| ==> q[i] != [] && (Size(q[i]) > maxBytes ==> |q[i]| == 1))
    && (forall i :: 0 <= i < |q| - 1 ==> Size(q[i]) + |q[i + 1][0]| > maxBytes)
  }

  function PushAll(q: Queue, maxBackups: nat, maxBytes: nat, records: seq<Bytes>): Queue
    decreases |records|
  {
    if records == [] then q else PushAll(Push(q, maxBackups, maxBytes, records[0]), maxBackups, maxBytes, records[1..])
  }

  function LoggedAll(files: Files, maxBackups: nat, maxBytes: nat, records: seq<Bytes>): Files
    decreases |records|
  {
    if records == [] then files
    else LoggedAll(Logged(files, maxBackups, maxBytes, records[0]), maxBackups, maxBytes, records[1..])
  }

  lemma SizeOfMore(records: seq<Bytes>, record: Bytes)
    ensures Size(records + [record]) == Size(records) + |record|
  {
    FlattenAppend(records, [record]);
    assert Flatten([record]) == record + Flatten<byte>([]);
  }

  lemma EnqueuedIsQueue(q: Queue, maxBackups: nat, maxBytes: nat, record: Bytes)
    requires IsQueue(q, maxBackups, maxBytes) && q != [] && Size(Newest(q)) + |record| > maxBytes
    ensures IsQueue(Enqueued(q, maxBackups, record), maxBackups, maxBytes)
  {
  }

  lemma PushKeepsQueue(q: Queue, maxBackups: nat, maxBytes: nat, record: Bytes)
    requires IsQueue(q, maxBackups, maxBytes)
    ensures IsQueue(Push(q, maxBackups, maxBytes, record), maxBackups, maxBytes)
  {
    if q != [] {
      SizeOfMore(Newest(q), record);
      if Size(Newest(q)) + |record| > maxBytes {
        EnqueuedIsQueue(q, maxBackups, maxBytes, record);
      }
    }
  }

  lemma FlattenHead<T>(q: seq<seq<T>>)
    requires q != []
    ensures Flatten(q) == q[0] + Flatten(q[1..])
  {
  }

  lemma FlattenLast<T>(q: seq<seq<T>>, last: seq<T>)
    ensures Flatten(q + [last]) == Flatten(q) + last
  {
    FlattenAppend(q, [last]);
    assert Flatten([last]) == last + Flatten<T>([]);
  }

  /** What a push adds at the end and what it may drop in front. */
  lemma PushedRecords(q: Queue, maxBackups: nat, maxBytes: nat, record: Bytes) returns (dropped: seq<Bytes>)
    ensures dropped + Flatten(Push(q, maxBackups, maxBytes, record)) == Flatten(q) + [record]
    ensures dropped != [] ==> |q| > maxBackups && dropped == q[0]
  {
    dropped := [];
    if q == [] {
      FlattenLast(q, [record]);
    } else if Size(Newest(q)) + |record| > maxBytes {
      if |q| > maxBackups {
        dropped := q[0];
        FlattenHead(q);
        FlattenLast(q[1..], [record]);
        Assoc(q[0], Flatten(q[1..]), [record]);
      } else {
        FlattenLast(q, [record]);
      }
    } else {
      var front := q[..|q| - 1];
      assert front + [Newest(q)] == q;
      FlattenLast(front, Newest(q));
      FlattenLast(front, Newest(q) + [record]);
      Assoc(Flatten(front), Newest(q), [record]);
    }
  }

  lemma {:induction false} PushingKeepsHistory(q: Queue, maxBackups: nat, maxBytes: nat,
                                               records: seq<Bytes>) returns (dropped: seq<Bytes>)
    requires IsQueue(q, maxBackups, maxBytes) && maxBackups >= 1
    ensures IsQueue(PushAll(q, maxBackups, maxBytes, records), maxBackups, maxBytes)
    ensures dropped + Flatten(PushAll(q, maxBackups, maxBytes, records)) == Flatten(q) + records
    ensures LoggedAll(FilesOf(q), maxBackups, maxBytes, records) == FilesOf(PushAll(q, maxBackups, maxBytes, records))
    decreases |records|
  {
    if records == [] {
      dropped := [];
      assert Flatten(q) + records == Flatten(q) && [] + Flatten(q) == Flatten(q);
    } else {
      var next := Push(q, maxBackups, maxBytes, records[0]);
      PushKeepsQueue(q, maxBackups, maxBytes, records[0]);
      LoggingIsPushing(q, maxBackups, maxBytes, records[0]);
      var first := PushedRecords(q, maxBackups, maxBytes, records[0]);
      var others := PushingKeepsHistory(next, maxBackups, maxBytes, records[1..]);
      dropped := first + others;
      JoinHistory(first, others, Flatten(PushAll(next, maxBackups, maxBytes, records[1..])), Flatten(next), Flatten(q),
                  records);
    }
  }

  lemma JoinHistory<T>(first: seq<T>, others: seq<T>, end: seq<T>, next: seq<T>, start: seq<T>, records: seq<T>)
    requires records != [] && first + next == start + [records[0]] && others + end == next + records[1..]
    ensures (first + others) + end == start + records
  {
    Assoc(first, others, end);
    Assoc(first, next, records[1..]);
    Assoc(start, [records[0]], records[1..]);
    assert [records[0]] + records[1..] == records;
  }

  /**
   After any appends to an empty log: at most maxBackups + 1 files, numbered without gaps; read
   from the oldest to the live one they are the last records of the history, in order and whole;
   and a file exceeds the limit only if it holds a single record.
   */
  lemma LogIsBoundedQueue(maxBackups: nat, maxBytes: nat, records: seq<Bytes>) returns (q: Queue, dropped: seq<Bytes>)
    requires maxBackups >= 1
    ensures LoggedAll(map[], maxBackups, maxBytes, records) == FilesOf(q)
    ensures |q| <= maxBackups + 1 && (records != [] ==> q != [])
    ensures dropped + Flatten(q) == records
    ensures forall i :: 0 <= i < |q| ==> q[i] != [] && (Size(q[i]) > maxBytes ==> |q[i]| == 1)
    ensures forall i :: 0 <= i < |q| - 1 ==> Size(q[i]) + |q[i + 1][0]| > maxBytes
  {
    q := PushAll([], maxBackups, maxBytes, records);
    assert FilesOf([]) == map[];
    dropped := PushingKeepsHistory([], maxBackups, maxBytes, records);
    assert Flatten<Bytes>([]) + records == records;
    PushedIsThere([], maxBackups, maxBytes, records);
  }

  lemma {:induction false} PushedIsThere(q: Queue, maxBackups: nat, maxBytes: nat, records: seq<Bytes>)
    ensures records != [] || q != [] ==> PushAll(q, maxBackups, maxBytes, records) != []
    decreases |records|
  {
    if records != [] {
      PushedIsThere(Push(q, maxBackups, maxBytes, records[0]), maxBackups, maxBytes, records[1..]);
    }
  }
}
