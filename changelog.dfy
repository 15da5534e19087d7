/** The comparison history kept by `save_changes_log`: every run appends one
    entry and only the newest 100 entries are kept. Reading and writing the
    JSON file are not modelled: the log starts from the entries read. */
module History {
  import opened Compare

  /** One saved comparison; the timestamp is the ISO text of the run time. */
  datatype LogEntry = LogEntry(timestamp: string, comparison: ComparisonResult)

  const MaxEntries: nat := 100

  /** The log after the `[-100:]` cut: the newest entries, at most 100 of
      them, in their original order. */
  function Trimmed(log: seq<LogEntry>): (r: seq<LogEntry>)
    ensures |r| == if |log| > MaxEntries then MaxEntries else |log|
    ensures r == log[|log| - |r|..]
  {
    if |log| > MaxEntries then log[|log| - MaxEntries..] else log
  }

  class ChangeLog {
    var entries: seq<LogEntry>

    /** A log holding the entries already on file (possibly more than 100,
        if the file was written by other means). */
    constructor (existing: seq<LogEntry>)
      ensures entries == existing
    {
      entries := existing;
    }

    /** Appends the entry of this run, then keeps only the newest 100. */
    method Save(timestamp: string, comparison: ComparisonResult)
      modifies this
      ensures entries == Trimmed(old(entries) + [LogEntry(timestamp, comparison)])
      ensures |entries| <= MaxEntries && entries[|entries| - 1] == LogEntry(timestamp, comparison)
    {
      entries := entries + [LogEntry(timestamp, comparison)];
      if |entries| > MaxEntries {
        entries := entries[|entries| - MaxEntries..];
      }
    }
  }

  /** After a save the new entry is the last one, the log holds at most 100
      entries, and every older entry that is kept moves by the same offset. */
  lemma SaveKeepsNewest(log: seq<LogEntry>, e: LogEntry)
    ensures var r := Trimmed(log + [e]);
            && 0 < |r| <= MaxEntries
            && r[|r| - 1] == e
            && (forall i :: 0 <= i < |r| - 1 ==> r[i] == log[|log| + 1 - |r| + i])
  {
  }

  /** The entry at position `k` survives a save iff at most 99 entries, the
      new one included, are newer than it, and it then keeps its place
      relative to the others: the log is first in, first out. */
  lemma SurvivesSave(log: seq<LogEntry>, e: LogEntry, k: nat)
    requires k < |log|
    ensures var full, r := log + [e], Trimmed(log + [e]);
            && (|full| - |r| <= k <==> |log| - k < MaxEntries)
            && (|log| - k < MaxEntries ==> r[k - (|full| - |r|)] == log[k])
  {
  }

  /** Trimming at every save keeps exactly what trimming the whole history
      once would keep: saving one entry at a time loses nothing extra. */
  lemma TrimEachSave(log: seq<LogEntry>, e: LogEntry)
    ensures Trimmed(Trimmed(log) + [e]) == Trimmed(log + [e])
  {
    var t := Trimmed(log);
    if |log| > MaxEntries {
      assert log + [e] == log[..|log| - MaxEntries] + (t + [e]);
      assert (t + [e])[1..] == (log + [e])[|log| + 1 - MaxEntries..];
    }
  }
}
