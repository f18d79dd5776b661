/** The chat transcript: a sorted map from append-time clock readings to
    transcript records. It is kept as a sequence of entries whose keys
    strictly ascend, so the order in which a reader iterates it is part of
    the value. Appending at a key already present replaces that entry, as
    setting an existing key of a sorted map does. */
module Transcript {
  import opened JsValues

  datatype Entry = Entry(key: int, record: Record)

  ghost predicate StrictlyAscending(entries: seq<Entry>) {
    forall i, j :: 0 <= i < j < |entries| ==> entries[i].key < entries[j].key
  }

  /** A transcript: entries in strictly ascending key order. */
  type Log = entries: seq<Entry> | StrictlyAscending(entries)

  /** The keys present in `entries`. */
  function KeySet(entries: seq<Entry>): set<int> {
    if entries == [] then {} else {entries[0].key} + KeySet(entries[1..])
  }

  /** The record stored under `key`, if any: a sorted map's `get`. */
  function Find(entries: seq<Entry>, key: int): Option<Record> {
    if entries == [] then None
    else if entries[0].key == key then Some(entries[0].record)
    else Find(entries[1..], key)
  }

  /** `Find` sees exactly the keys present. */
  lemma {:induction false} FindIffKey(entries: seq<Entry>, key: int)
    ensures Find(entries, key).Some? <==> key in KeySet(entries)
  {
    if entries != [] && entries[0].key != key {
      FindIffKey(entries[1..], key);
    }
  }

  lemma {:induction false} KeyOfEntry(entries: seq<Entry>, j: int)
    requires 0 <= j < |entries|
    ensures entries[j].key in KeySet(entries)
  {
    if j > 0 {
      KeyOfEntry(entries[1..], j - 1);
    }
  }

  lemma {:induction false} EntryOfKey(entries: seq<Entry>, k: int) returns (j: int)
    requires k in KeySet(entries)
    ensures 0 <= j < |entries| && entries[j].key == k
  {
    if entries[0].key == k {
      j := 0;
    } else {
      j := EntryOfKey(entries[1..], k);
      j := j + 1;
    }
  }

  /** Every key after the first entry of a transcript exceeds the first key. */
  lemma TailAboveHead(log: Log)
    requires log != []
    ensures forall k | k in KeySet(log[1..]) :: log[0].key < k
  {
    forall k | k in KeySet(log[1..]) ensures log[0].key < k {
      var j := EntryOfKey(log[1..], k);
      assert log[j + 1] == log[1..][j];
    }
  }

  lemma AllAboveFromKeys(entries: seq<Entry>, x: int)
    requires forall k | k in KeySet(entries) :: x < k
    ensures forall j :: 0 <= j < |entries| ==> x < entries[j].key
  {
    forall j | 0 <= j < |entries| ensures x < entries[j].key {
      KeyOfEntry(entries, j);
    }
  }

  lemma ConsAscending(first: Entry, log: Log)
    requires forall j :: 0 <= j < |log| ==> first.key < log[j].key
    ensures StrictlyAscending([first] + log)
  {
    var r := [first] + log;
    forall i, j | 0 <= i < j < |r| ensures r[i].key < r[j].key {
      if i > 0 {
        assert r[i] == log[i - 1] && r[j] == log[j - 1];
      } else {
        assert r[j] == log[j - 1];
      }
    }
  }

  /** `log.concat({[key]: record})`: a new log equal to `log` with `record`
      stored under `key`, in key order. */
  function Insert(log: Log, key: int, record: Record): (r: Log)
    ensures Find(r, key) == Some(record)
    ensures forall k :: k != key ==> Find(r, k) == Find(log, k)
    ensures KeySet(r) == KeySet(log) + {key}
    ensures |r| == if key in KeySet(log) then |log| else |log| + 1
    decreases |log|
  {
    if log == [] then [Entry(key, record)]
    else if key < log[0].key then
      TailAboveHead(log);
      ConsAscending(Entry(key, record), log);
      [Entry(key, record)] + log
    else if key == log[0].key then
      TailAboveHead(log);
      ConsAscending(Entry(key, record), log[1..]);
      [Entry(key, record)] + log[1..]
    else
      var rest := Insert(log[1..], key, record);
      TailAboveHead(log);
      AllAboveFromKeys(rest, log[0].key);
      ConsAscending(log[0], rest);
      assert ([log[0]] + rest)[1..] == rest;
      [log[0]] + rest
  }

  /** A key later than every key present lands at the end: appending in
      clock order keeps the transcript in clock order. */
  lemma {:induction false} AppendAfterLast(log: Log, key: int, record: Record)
    requires forall k | k in KeySet(log) :: k < key
    ensures Insert(log, key, record) == log + [Entry(key, record)]
    decreases |log|
  {
    if log != [] {
      assert KeySet(log) == {log[0].key} + KeySet(log[1..]);
      AppendAfterLast(log[1..], key, record);
      calc {
        Insert(log, key, record);
        [log[0]] + Insert(log[1..], key, record);
        [log[0]] + (log[1..] + [Entry(key, record)]);
        { assert log == [log[0]] + log[1..]; }
        log + [Entry(key, record)];
      }
    }
  }

  /** Two appends at strictly increasing clock readings, both later than the
      whole transcript, come out in the order they were made. */
  lemma TwoAppendsInOrder(log: Log, k1: int, r1: Record, k2: int, r2: Record)
    requires forall k | k in KeySet(log) :: k < k1
    requires k1 < k2
    ensures Insert(Insert(log, k1, r1), k2, r2) == log + [Entry(k1, r1), Entry(k2, r2)]
  {
    AppendAfterLast(log, k1, r1);
    var mid := Insert(log, k1, r1);
    assert KeySet(mid) == KeySet(log) + {k1};
    AppendAfterLast(mid, k2, r2);
    assert mid + [Entry(k2, r2)] == log + [Entry(k1, r1), Entry(k2, r2)];
  }

  lemma FindHead(entries: seq<Entry>)
    requires entries != []
    ensures Find(entries, entries[0].key) == Some(entries[0].record)
  {
  }

  /** The first key of a transcript appears nowhere after it. */
  lemma HeadKeyUnique(log: Log)
    requires log != []
    ensures Find(log[1..], log[0].key) == None
  {
    TailAboveHead(log);
    FindIffKey(log[1..], log[0].key);
  }

  /** A transcript is determined by what it stores under each key: the
      sequence is a faithful representation of a sorted map. */
  lemma {:induction false} Extensionality(l1: Log, l2: Log)
    requires forall k :: Find(l1, k) == Find(l2, k)
    ensures l1 == l2
    decreases |l1|
  {
    if l1 == [] {
      if l2 != [] {
        FindHead(l2);
        assert false;
      }
    } else if l2 == [] {
      FindHead(l1);
      assert false;
    } else {
      var h1, h2 := l1[0].key, l2[0].key;
      FindHead(l1);
      FindHead(l2);
      FindIffKey(l1, h2);
      FindIffKey(l2, h1);
      TailAboveHead(l1);
      TailAboveHead(l2);
      assert KeySet(l1) == {h1} + KeySet(l1[1..]);
      assert KeySet(l2) == {h2} + KeySet(l2[1..]);
      assert h1 <= h2 && h2 <= h1;
      HeadKeyUnique(l1);
      HeadKeyUnique(l2);
      forall k ensures Find(l1[1..], k) == Find(l2[1..], k) {
        if k != h1 {
          assert Find(l1, k) == Find(l1[1..], k);
          assert Find(l2, k) == Find(l2[1..], k);
        }
      }
      Extensionality(l1[1..], l2[1..]);
      assert l1 == [l1[0]] + l1[1..];
      assert l2 == [l2[0]] + l2[1..];
    }
  }

  /** Two appends within the same clock tick: the later one silently
      replaces the earlier one. */
  lemma {:induction false} SameTickOverwrites(log: Log, key: int, r1: Record, r2: Record)
    ensures Insert(Insert(log, key, r1), key, r2) == Insert(log, key, r2)
    decreases |log|
  {
    if log != [] && key > log[0].key {
      SameTickOverwrites(log[1..], key, r1, r2);
    }
  }
}
