// Opening a database again: log files replayed in the order they were written
// (db/db_impl.cc, RecoverLogFile and Recover).

module Recovery {
  import opened Sequences
  import opened Bits
  import opened Coding
  import opened History
  import opened WriteBatches
  import opened LogFormat
  import opened LogReading

  ghost predicate Writable(log: seq<Record>) {
    forall r | r in log :: AllEncodable(r.ops) && 0 < r.first < TWO_32 * TWO_32 && r.first + |r.ops| <= TWO_32 * TWO_32
  }

  // The batches of a log as the log's records.
  ghost function Encoded(log: seq<Record>): (s: seq<Data>)
    requires Writable(log)
    ensures |s| == |log|
  {
    seq(|log|, i requires 0 <= i < |log| => Encode(log[i]))
  }

  // Sequence + Count - 1, in 64 bits.
  function LastOf(first: nat, count: nat): nat {
    (first + count + (TWO_32 * TWO_32 - 1)) % (0x1_0000_0000 * 0x1_0000_0000)
  }

  // The greatest sequence number among a start and the ends of these batches.
  function Highest(start: nat, log: seq<Record>): nat {
    if log == [] then start else
      var h, r := Highest(start, log[..|log| - 1]), log[|log| - 1];
      if r.first + |r.ops| > h + 1 then r.first + |r.ops| - 1 else h
  }

  function Flat(tables: seq<seq<Stamped>>): seq<Stamped> {
    if tables == [] then [] else Flat(tables[..|tables| - 1]) + tables[|tables| - 1]
  }

  lemma ReplayStep(log: seq<Record>, start: nat, j: nat)
    requires j < |log| && Writable(log)
    ensures Replay(log[..j + 1]) == Replay(log[..j]) + Numbered(log[j].first, log[j].ops)
    ensures var h, last := Highest(start, log[..j]), LastOf(log[j].first, |log[j].ops|);
      Highest(start, log[..j + 1]) == if last > h then last else h
  {
    var s := log[..j + 1];
    assert s[..|s| - 1] == log[..j] && s[|s| - 1] == log[j];
    assert log[j] in log;
  }

  lemma RecordReads(log: seq<Record>, j: nat)
    requires j < |log| && Writable(log)
    ensures var rep := Encoded(log)[j];
      && |rep| >= HEADER && ReadFixed64(rep) == log[j].first && ReadFixed32(rep[8..]) == |log[j].ops|
      && ParseOps(rep[HEADER..]) == (log[j].ops, true)
  {
    hide ReadFixed64, ReadFixed32, ParseOps;
    assert log[j] in log;
    BatchRoundTrip(log[j]);
  }

  lemma FlatAppend(tables: seq<seq<Stamped>>, t: seq<Stamped>)
    ensures Flat(tables + [t]) == Flat(tables) + t
  {
    assert (tables + [t])[..|tables|] == tables;
  }

  // What has been recovered: the tables, then what the memtable holds.
  function Recovered(tables: seq<seq<Stamped>>, mem: Option<seq<Stamped>>): seq<Stamped> {
    Flat(tables) + if mem.Some? then mem.value else []
  }

  lemma FlushedSame(tables: seq<seq<Stamped>>, t: seq<Stamped>)
    ensures Recovered(tables + [t], None) == Flat(tables + [t]) == Recovered(tables, Some(t))
  {
    FlatAppend(tables, t);
  }

  lemma RecoveredNone(tables: seq<seq<Stamped>>)
    ensures Recovered(tables, None) == Flat(tables)
  {
  }

  // What a batch adds to the memtable, begun if there is none.
  function Inserted(record: Data, mem: Option<seq<Stamped>>): seq<Stamped>
    requires |record| >= HEADER
  {
    (if mem.Some? then mem.value else []) + Numbered(ReadFixed64(record), ParseOps(record[HEADER..]).0)
  }

  lemma RecoveredMore(tables: seq<seq<Stamped>>, mem: Option<seq<Stamped>>, record: Data)
    requires |record| >= HEADER
    ensures Recovered(tables, Some(Inserted(record, mem)))
         == Recovered(tables, mem) + Numbered(ReadFixed64(record), ParseOps(record[HEADER..]).0)
  {
  }

  // SetContents, InsertInto and the last sequence number.
  method InsertInto(record: Data, mem: Option<seq<Stamped>>) returns (r: Option<seq<Stamped>>, fine: bool, lastSeq: nat)
    requires |record| >= HEADER
    ensures r == Some(Inserted(record, mem)) && lastSeq == LastOf(ReadFixed64(record), ReadFixed32(record[8..]))
    ensures ParseOps(record[HEADER..]).1 && |ParseOps(record[HEADER..]).0| == ReadFixed32(record[8..]) ==> fine
  {
    var batch := new WriteBatch();
    batch.rep := record;
    var handled;
    handled, fine := batch.Iterate();
    var first := ReadFixed64(batch.rep);
    r := Some((if mem.Some? then mem.value else []) + Numbered(first, handled));
    lastSeq := LastOf(first, batch.Count());
  }

  // One file.  Cut anywhere, it gives back exactly the batches written whole, with their numbers.
  method RecoverLogFile(file: Data, paranoid: bool, full: seq<Stamped> -> bool, start: nat, ghost log: seq<Record>)
    returns (tables: seq<seq<Stamped>>, maxSequence: nat, ok: bool)
    requires Writable(log)
    ensures Prefix(file, Log(Encoded(log))) ==>
      var k := Wholly(0, Encoded(log), |file|);
      ok && Flat(tables) == Replay(log[..k]) && maxSequence == Highest(start, log[..k])
  {
    hide Holds, AllFragments, Layout, Fragments, Replay, Highest, ParseOps, ReadFixed64, ReadFixed32, Numbered, LastOf,
         Flat, Recovered, Inserted, Writable, EndRecord, Log, Prefix;
    var reader := new Reader(file, true);
    ghost var held := Prefix(file, Log(Encoded(log)));
    ghost var records := Encoded(log);
    ghost var pos: nat, j: nat, k := 0, 0, Wholly(0, records, |file|);
    if held {
      LogHolds(records, file);
    }
    var mem: Option<seq<Stamped>> := None;
    tables, maxSequence, ok := [], start, true;
    NothingYet(start, log);
    while true
      invariant fresh(reader) && reader.Valid()
      invariant j <= |records| && (held ==> ok)
      invariant held ==> j <= k && k == j + Wholly(pos, records[j..], |file|)
      invariant held ==> reader.Before(pos, AllFragments(pos, records[j..])) && pos + reader.Left() == |file|
      invariant held ==> reader.corruptions == [] && maxSequence == Highest(start, log[..j])
      invariant held ==> Recovered(tables, mem) == Replay(log[..j])
      decreases reader.Left()
    {
      ghost var rest := records[j..];
      var got, record := reader.ReadRecord(pos, rest);
      if paranoid && reader.corruptions != [] {
        ok := false;
      }
      if !got || !ok {
        break;
      }
      if held {
        assert rest[0] == records[j] && rest[1..] == records[j + 1..];
        pos, j := EndRecord(pos, rest[0]), j + 1;
        RecordReads(log, j - 1);
        ReplayStep(log, start, j - 1);
      }
      if |record| < HEADER {
        ok := !paranoid;
        continue;
      }
      var fine, lastSeq;
      RecoveredMore(tables, mem, record);
      mem, fine, lastSeq := InsertInto(record, mem);
      if !fine && paranoid {
        ok := false;
        break;
      }
      if lastSeq > maxSequence {
        maxSequence := lastSeq;
      }
      if full(mem.value) {
        FlushedSame(tables, mem.value);
        tables := tables + [mem.value];
        mem := None;
      }
    }
    assert held ==> j == k;
    RecoveredNone(tables);
    if mem.Some? && ok {
      FlushedSame(tables, mem.value);
      tables := tables + [mem.value];
    }
  }

  lemma NothingYet(start: nat, log: seq<Record>)
    ensures Recovered([], None) == Replay(log[..0]) && Highest(start, log[..0]) == start
  {
  }

  // Records a sync put on disk come back, whatever is lost behind them.
  lemma SyncedRecordsSurvive(log: seq<Record>, durable: nat, n: nat)
    requires Writable(log) && durable <= |log| && |Log(Encoded(log[..durable]))| <= n
    ensures durable <= Wholly(0, Encoded(log), n)
    ensures Replay(log[..durable]) <= Replay(log[..Wholly(0, Encoded(log), n)])
  {
    hide Log, Wholly, Encode, Replay;
    var k := Wholly(0, Encoded(log), n);
    assert Encoded(log)[..durable] == Encoded(log[..durable]);
    WhollyIsLongest(Encoded(log), n, durable);
    assert log[..k] == log[..durable] + log[durable..k];
    ReplayConcat(log[..durable], log[durable..k], 0);
  }

  // ---- All the log files. ----

  function Joined(logs: seq<seq<Record>>): seq<Record> {
    if logs == [] then [] else Joined(logs[..|logs| - 1]) + logs[|logs| - 1]
  }

  // Every file but the newest is whole; the newest may be cut anywhere.
  ghost predicate CutShort(files: seq<Data>, logs: seq<seq<Record>>)
    requires |files| == |logs| && forall log | log in logs :: Writable(log)
  {
    forall i | 0 <= i < |files| :: if i < |files| - 1 then files[i] == Log(Encoded(logs[i])) else Prefix(files[i], Log(Encoded(logs[i])))
  }

  // The batches that were written whole.
  ghost function Survivors(files: seq<Data>, logs: seq<seq<Record>>): seq<Record>
    requires |files| == |logs| && forall log | log in logs :: Writable(log)
  {
    if files == [] then [] else
      var n := |files| - 1;
      Joined(logs[..n]) + logs[n][..Wholly(0, Encoded(logs[n]), |files[n]|)]
  }

  lemma {:induction false} ReplayConcat(a: seq<Record>, b: seq<Record>, start: nat)
    ensures Replay(a + b) == Replay(a) + Replay(b)
    ensures Highest(start, a + b) == Highest(Highest(start, a), b)
    decreases |b|
  {
    hide Replay, Highest, Numbered;
    if b == [] {
      assert a + b == a;
      ReplayNone(Highest(start, a));
    } else {
      var n := |b| - 1;
      ReplayConcat(a, b[..n], start);
      ReplaySnoc(a + b[..n], b[n], start);
      ReplaySnoc(b[..n], b[n], Highest(start, a));
      assert a + b == (a + b[..n]) + [b[n]] && b == b[..n] + [b[n]];
      Associates(Replay(a), Replay(b[..n]), Numbered(b[n].first, b[n].ops));
    }
  }

  lemma ReplayNone(start: nat)
    ensures Replay([]) == [] && Highest(start, []) == start
  {
  }

  lemma ReplaySnoc(log: seq<Record>, r: Record, start: nat)
    ensures Replay(log + [r]) == Replay(log) + Numbered(r.first, r.ops)
    ensures Highest(start, log + [r])
         == if r.first + |r.ops| > Highest(start, log) + 1 then r.first + |r.ops| - 1 else Highest(start, log)
  {
    assert (log + [r])[..|log|] == log;
  }

  lemma {:induction false} FlatConcat(a: seq<seq<Stamped>>, b: seq<seq<Stamped>>)
    ensures Flat(a + b) == Flat(a) + Flat(b)
    decreases |b|
  {
    if b == [] {
      assert a + b == a;
    } else {
      var n := |b| - 1;
      FlatConcat(a, b[..n]);
      assert (a + b)[..|a + b| - 1] == a + b[..n];
      Associates(Flat(a), Flat(b[..n]), b[n]);
    }
  }

  lemma JoinedStep(logs: seq<seq<Record>>, i: nat)
    requires i < |logs|
    ensures Joined(logs[..i + 1]) == Joined(logs[..i]) + logs[i]
  {
    assert logs[..i + 1][..i] == logs[..i];
  }

  // The log files in number order.
  method Recover(files: seq<Data>, paranoid: bool, full: seq<Stamped> -> bool, lastSequence: nat, ghost logs: seq<seq<Record>>)
    returns (tables: seq<seq<Stamped>>, newLastSequence: nat, ok: bool)
    requires |files| == |logs| && forall log | log in logs :: Writable(log)
    ensures CutShort(files, logs) ==>
      && ok && Flat(tables) == Replay(Survivors(files, logs))
      && newLastSequence == Highest(lastSequence, Survivors(files, logs))
      // Nothing is lost before something that is kept.
      && Survivors(files, logs) <= Joined(logs)
  {
    hide Replay, Highest, Flat, Wholly, Log, Encoded, Writable;
    ghost var held := CutShort(files, logs);
    ghost var kept: seq<Record> := [];
    var maxSequence: nat := 0;
    tables, ok := [], true;
    NothingKept();
    var i := 0;
    while i < |files|
      invariant i <= |files|
      invariant held ==> ok && Flat(tables) == Replay(kept) && maxSequence == Highest(0, kept)
      invariant held ==> kept == if i < |files| || i == 0 then Joined(logs[..i]) else Survivors(files, logs)
    {
      ghost var log := logs[i];
      assert log in logs;
      var more, max, fine := RecoverLogFile(files[i], paranoid, full, maxSequence, log);
      if held {
        ghost var k := Wholly(0, Encoded(log), |files[i]|);
        FlatConcat(tables, more);
        ReplayConcat(kept, log[..k], 0);
        JoinedStep(logs, i);
        if i < |files| - 1 {
          UncutLogIsWhole(Encoded(log));
          assert log[..|log|] == log;
        }
        kept := kept + log[..k];
      }
      tables, maxSequence := tables + more, max;
      if !fine {
        return tables, lastSequence, false;
      }
      i := i + 1;
    }
    newLastSequence := if lastSequence < maxSequence then maxSequence else lastSequence;
    HighestFrom(lastSequence, kept);
  }

  lemma NothingKept()
    ensures Flat([]) == [] && Replay([]) == [] && Highest(0, []) == 0
  {
  }

  lemma {:induction false} HighestFrom(start: nat, log: seq<Record>)
    ensures Highest(start, log) == if start < Highest(0, log) then Highest(0, log) else start
    decreases |log|
  {
    if log != [] {
      HighestFrom(start, log[..|log| - 1]);
    }
  }

  // Batches numbered one after another: the recovered sequence is the last one used.
  lemma {:induction false} HighestIsLast(log: seq<Record>)
    requires forall i | 0 <= i < |log| :: log[i].first >= 1
    requires forall i, j | 0 <= i < j < |log| :: log[i].first + |log[i].ops| <= log[j].first
    ensures log != [] ==> Highest(0, log) + 1 == log[|log| - 1].first + |log[|log| - 1].ops|
    decreases |log|
  {
    if log != [] {
      HighestIsLast(log[..|log| - 1]);
    }
  }
}
