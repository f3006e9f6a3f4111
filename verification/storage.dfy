/** The version bookkeeping of `InventoryStorage.save` in
    `cloudinventario/storage.py`. The database is reduced to its two inputs:
    the grouped ledger rows `(source, max(version))` and the batch of records.
    The output is the batch stamped with versions, the ledger rows to insert
    and the returned flag. */
module Storage {
  import opened Record
  import Assoc

  /** One row of `SELECT source, max(version) FROM ci_source GROUP BY source`. */
  datatype LedgerRow = LedgerRow(source: string, version: int)

  /** A row inserted into `ci_source`. */
  datatype SourceEntry = SourceEntry(source: string, version: int, entries: nat)

  /** A record of the batch together with the `version` it was given. */
  datatype Stamped = Stamped(rec: InventoryRecord, version: int)

  /** What GROUP BY guarantees: each source appears in one row. */
  predicate Grouped(rows: seq<LedgerRow>) {
    forall i, j :: 0 <= i < j < |rows| ==> rows[i].source != rows[j].source
  }

  /** The first grouped row has a non-empty source (or there is none); only
      then does `save` take the ledger into account. */
  predicate LedgerUsed(rows: seq<LedgerRow>) {
    |rows| > 0 && rows[0].source != ""
  }

  /** `sources` after the increment loop: every ledger row with its version
      raised by one, or nothing when the first row has a falsy source. */
  function Active(rows: seq<LedgerRow>): (r: seq<(string, int)>)
    ensures |r| == (if LedgerUsed(rows) then |rows| else 0)
    ensures forall i :: 0 <= i < |r| ==> r[i] == (rows[i].source, rows[i].version + 1)
  {
    if LedgerUsed(rows) then seq(|rows|, i requires 0 <= i < |rows| => (rows[i].source, rows[i].version + 1))
    else []
  }

  /** The `versions` dict before the batch is read. */
  function Known(rows: seq<LedgerRow>): map<string, int> {
    Assoc.ToMap(Active(rows))
  }

  /** The version a record of source `s` receives. */
  function VersionOf(rows: seq<LedgerRow>, s: string): int {
    VersionIn(Known(rows), s)
  }

  function Sources(batch: seq<InventoryRecord>): set<string> {
    set i | 0 <= i < |batch| :: batch[i].source
  }

  /** The number of records of source `s` in the batch. */
  function CountOf(batch: seq<InventoryRecord>, s: string): nat {
    if |batch| == 0 then 0
    else CountOf(batch[..|batch| - 1], s) + (if batch[|batch| - 1].source == s then 1 else 0)
  }

  /** The sources of the batch the ledger does not know, in order of first appearance. */
  function NewSources(known: set<string>, batch: seq<InventoryRecord>): (r: seq<string>)
    ensures forall i :: 0 <= i < |r| ==> r[i] !in known && r[i] in Sources(batch)
    ensures forall s :: s in Sources(batch) && s !in known ==> s in r
    ensures forall i, j :: 0 <= i < j < |r| ==> r[i] != r[j]
  {
    if |batch| == 0 then []
    else
      var init := batch[..|batch| - 1];
      var p := NewSources(known, init);
      var s := batch[|batch| - 1].source;
      assert Sources(batch) == Sources(init) + {s} by {
        forall t | t in Sources(batch) ensures t in Sources(init) + {s} {
          var i :| 0 <= i < |batch| && batch[i].source == t;
          if i < |batch| - 1 {
            assert init[i] == batch[i];
          }
        }
        forall t | t in Sources(init) ensures t in Sources(batch) {
          var i :| 0 <= i < |init| && init[i].source == t;
          assert batch[i] == init[i];
        }
      }
      if s in known || s in p then p else p + [s]
  }

  /** A new source enters the ledger with version 1. */
  function Ones(ss: seq<string>): (r: seq<(string, int)>)
    ensures |r| == |ss|
    ensures forall i :: 0 <= i < |ss| ==> r[i] == (ss[i], 1)
  {
    seq(|ss|, i requires 0 <= i < |ss| => (ss[i], 1))
  }

  /** The "save entry counts" loop: the sources that have records in the
      batch, in `sources` order, with their counts. */
  function Keep(srcs: seq<(string, int)>, batch: seq<InventoryRecord>): (r: seq<SourceEntry>)
    ensures forall k :: 0 <= k < |r| ==>
              (exists i :: 0 <= i < |srcs| && srcs[i] == (r[k].source, r[k].version))
              && r[k].source in Sources(batch) && r[k].entries == CountOf(batch, r[k].source)
    ensures forall i :: 0 <= i < |srcs| && srcs[i].0 in Sources(batch) ==>
              SourceEntry(srcs[i].0, srcs[i].1, CountOf(batch, srcs[i].0)) in r
    ensures (forall i, j :: 0 <= i < j < |srcs| ==> srcs[i].0 != srcs[j].0) ==>
              forall k, l :: 0 <= k < l < |r| ==> r[k].source != r[l].source
  {
    if |srcs| == 0 then []
    else
      var init := srcs[..|srcs| - 1];
      var rest := Keep(init, batch);
      var (s, v) := srcs[|srcs| - 1];
      assert forall i :: 0 <= i < |init| ==> init[i] == srcs[i];
      if s in Sources(batch) then rest + [SourceEntry(s, v, CountOf(batch, s))] else rest
  }

  /** The increment loop: `sources` and the `versions` dict built from the ledger. */
  method ActiveVersions(rows: seq<LedgerRow>) returns (sources: seq<(string, int)>, versions: map<string, int>)
    ensures sources == Active(rows)
    ensures versions == Known(rows)
  {
    sources := [];
    if |rows| > 0 && rows[0].source != "" {
      sources := seq(|rows|, i requires 0 <= i < |rows| => (rows[i].source, rows[i].version + 1));
    }
    versions := map[];
    var i := 0;
    while i < |sources|
      invariant 0 <= i <= |sources|
      invariant versions == Assoc.ToMap(sources[..i])
    {
      assert sources[..i + 1][..i] == sources[..i];
      assert Assoc.ToMap(sources[..i + 1]) == Assoc.ToMap(sources[..i])[sources[i].0 := sources[i].1];
      versions := versions[sources[i].0 := sources[i].1];
      i := i + 1;
    }
    assert sources[..i] == sources;
  }

  /** The version a record of source `s` receives from a `versions` dict. */
  function VersionIn(known: map<string, int>, s: string): int {
    if s in known then known[s] else 1
  }

  /** The variables of the batch loop. */
  datatype BatchState = BatchState(
    versions: map<string, int>,
    sources: seq<(string, int)>,
    entries: map<string, nat>,
    stamped: seq<Stamped>)

  /** One turn of the batch loop on record `rec`. */
  function Step(st: BatchState, rec: InventoryRecord): BatchState {
    var s := rec.source;
    var isNew := s !in st.versions;
    var versions := if isNew then st.versions[s := 1] else st.versions;
    var sources := if isNew then st.sources + [(s, 1)] else st.sources;
    var count := if s in st.entries then st.entries[s] else 0;
    BatchState(versions, sources, st.entries[s := count + 1], st.stamped + [Stamped(rec, versions[s])])
  }

  /** The batch loop run over `batch`, starting from the ledger's `versions`. */
  function Fold(known: map<string, int>, sources0: seq<(string, int)>, batch: seq<InventoryRecord>): BatchState {
    if |batch| == 0 then BatchState(known, sources0, map[], [])
    else Step(Fold(known, sources0, batch[..|batch| - 1]), batch[|batch| - 1])
  }

  /** The dict `versions` knows the ledger's sources and the batch's, with
      the ledger's versions and 1 for the new ones. */
  lemma {:induction false} FoldVersions(known: map<string, int>, sources0: seq<(string, int)>,
                                        batch: seq<InventoryRecord>)
    ensures var st := Fold(known, sources0, batch);
            && st.versions.Keys == known.Keys + Sources(batch)
            && (forall s :: s in st.versions ==> st.versions[s] == VersionIn(known, s))
  {
    if |batch| > 0 {
      FoldVersions(known, sources0, batch[..|batch| - 1]);
      SourcesSnoc(batch);
    }
  }

  /** `sources` gains the new sources, once each, in order of first appearance. */
  lemma {:induction false} FoldSources(known: map<string, int>, sources0: seq<(string, int)>,
                                       batch: seq<InventoryRecord>)
    ensures Fold(known, sources0, batch).sources == sources0 + Ones(NewSources(known.Keys, batch))
  {
    if |batch| > 0 {
      var init := batch[..|batch| - 1];
      var s := batch[|batch| - 1].source;
      FoldSources(known, sources0, init);
      FoldVersions(known, sources0, init);
      var news := NewSources(known.Keys, init);
      assert Fold(known, sources0, batch) == Step(Fold(known, sources0, init), batch[|batch| - 1]);
      assert NewSources(known.Keys, batch) == if s in known.Keys || s in news then news else news + [s];
      StepSources(Fold(known, sources0, init), batch[|batch| - 1], sources0, news, known.Keys);
    }
  }

  /** One turn of the batch loop appends its record's source to `sources`
      exactly when neither the ledger nor an earlier record knew it. */
  lemma StepSources(prev: BatchState, rec: InventoryRecord, sources0: seq<(string, int)>, news: seq<string>,
                    known: set<string>)
    requires prev.sources == sources0 + Ones(news)
    requires rec.source in prev.versions <==> rec.source in known || rec.source in news
    ensures Step(prev, rec).sources ==
            sources0 + Ones(if rec.source in known || rec.source in news then news else news + [rec.source])
  {
    var s := rec.source;
    if s !in prev.versions {
      assert Ones(news + [s]) == Ones(news) + [(s, 1)];
    }
  }

  /** `entries` counts the records of each source. */
  lemma {:induction false} FoldEntries(known: map<string, int>, sources0: seq<(string, int)>,
                                       batch: seq<InventoryRecord>)
    ensures var st := Fold(known, sources0, batch);
            && st.entries.Keys == Sources(batch)
            && (forall s :: s in st.entries ==> st.entries[s] == CountOf(batch, s))
  {
    if |batch| > 0 {
      FoldEntries(known, sources0, batch[..|batch| - 1]);
      SourcesSnoc(batch);
      CountOfSnoc(batch);
      if batch[|batch| - 1].source !in Sources(batch[..|batch| - 1]) {
        CountOfAbsent(batch[..|batch| - 1], batch[|batch| - 1].source);
      }
    }
  }

  /** Every record is kept, in order, with the version of its source. */
  lemma {:induction false} FoldStamped(known: map<string, int>, sources0: seq<(string, int)>,
                                       batch: seq<InventoryRecord>)
    ensures var st := Fold(known, sources0, batch);
            && |st.stamped| == |batch|
            && (forall k :: 0 <= k < |batch| ==>
                  st.stamped[k].rec == batch[k] && st.stamped[k].version == VersionIn(known, batch[k].source))
  {
    if |batch| > 0 {
      var init := batch[..|batch| - 1];
      var last := batch[|batch| - 1];
      FoldStamped(known, sources0, init);
      FoldVersions(known, sources0, init);
      var prev := Fold(known, sources0, init);
      var st := Step(prev, last);
      assert Fold(known, sources0, batch) == st;
      assert st.stamped == prev.stamped + [Stamped(last, st.versions[last.source])];
      assert st.versions[last.source] == VersionIn(known, last.source);
      forall k | 0 <= k < |batch|
        ensures st.stamped[k].rec == batch[k] && st.stamped[k].version == VersionIn(known, batch[k].source)
      {
        if k < |init| {
          assert st.stamped[k] == prev.stamped[k] && init[k] == batch[k];
        }
      }
    }
  }

  /** The batch loop: every record gets its version, new sources are appended
      to `sources` with version 1, and records are counted per source. */
  method StampBatch(known: map<string, int>, batch: seq<InventoryRecord>, sources0: seq<(string, int)>)
    returns (stamped: seq<Stamped>, sources: seq<(string, int)>, entries: map<string, nat>)
    ensures |stamped| == |batch|
    ensures forall k :: 0 <= k < |batch| ==>
              stamped[k].rec == batch[k] && stamped[k].version == VersionIn(known, batch[k].source)
    ensures sources == sources0 + Ones(NewSources(known.Keys, batch))
    ensures entries.Keys == Sources(batch)
    ensures forall s :: s in entries ==> entries[s] == CountOf(batch, s)
  {
    var versions := known;
    sources := sources0;
    entries := map[];
    stamped := [];
    var j := 0;
    while j < |batch|
      invariant 0 <= j <= |batch|
      invariant BatchState(versions, sources, entries, stamped) == Fold(known, sources0, batch[..j])
    {
      var rec := batch[j];
      assert batch[..j + 1][..j] == batch[..j];
      ghost var next := Step(BatchState(versions, sources, entries, stamped), rec);
      assert Fold(known, sources0, batch[..j + 1]) == next;
      if rec.source !in versions {
        versions := versions[rec.source := 1];
        sources := sources + [(rec.source, 1)];
      }
      stamped := stamped + [Stamped(rec, versions[rec.source])];
      var count := if rec.source in entries then entries[rec.source] else 0;
      entries := entries[rec.source := count + 1];
      j := j + 1;
    }
    assert batch[..j] == batch;
    FoldVersions(known, sources0, batch);
    FoldSources(known, sources0, batch);
    FoldEntries(known, sources0, batch);
    FoldStamped(known, sources0, batch);
  }

  /** The "save entry counts" loop. */
  method KeepCounted(sources: seq<(string, int)>, batch: seq<InventoryRecord>, entries: map<string, nat>)
    returns (saved: seq<SourceEntry>)
    requires entries.Keys == Sources(batch)
    requires forall s :: s in entries ==> entries[s] == CountOf(batch, s)
    ensures saved == Keep(sources, batch)
  {
    saved := [];
    var k := 0;
    while k < |sources|
      invariant 0 <= k <= |sources|
      invariant saved == Keep(sources[..k], batch)
    {
      assert sources[..k + 1][..k] == sources[..k];
      ghost var (s, v) := sources[k];
      assert Keep(sources[..k + 1], batch) ==
             if s in Sources(batch) then Keep(sources[..k], batch) + [SourceEntry(s, v, CountOf(batch, s))]
             else Keep(sources[..k], batch);
      if sources[k].0 in entries {
        saved := saved + [SourceEntry(sources[k].0, sources[k].1, entries[sources[k].0])];
      }
      k := k + 1;
    }
    assert sources[..k] == sources;
  }

  /** `InventoryStorage.save(data)` without the database: the stamped batch,
      the rows written to `ci_source`, and the returned flag. */
  method Save(rows: seq<LedgerRow>, batch: seq<InventoryRecord>)
    returns (stamped: seq<Stamped>, saved: seq<SourceEntry>, ok: bool)
    requires Grouped(rows)
    ensures |stamped| == |batch|
    ensures forall i :: 0 <= i < |batch| ==>
              stamped[i].rec == batch[i] && stamped[i].version == VersionOf(rows, batch[i].source)
    ensures forall k :: 0 <= k < |saved| ==>
              && saved[k].source in Sources(batch)
              && saved[k].version == VersionOf(rows, saved[k].source)
              && saved[k].entries == CountOf(batch, saved[k].source)
    ensures forall s :: s in Sources(batch) ==> exists k :: 0 <= k < |saved| && saved[k].source == s
    ensures forall k, l :: 0 <= k < l < |saved| ==> saved[k].source != saved[l].source
    ensures SumEntries(saved) == |batch|
    ensures ok <==> LedgerUsed(rows) || |batch| > 0
  {
    var sources, versions := ActiveVersions(rows);
    var entries;
    stamped, sources, entries := StampBatch(versions, batch, sources);
    saved := KeepCounted(sources, batch, entries);
    SavedRows(rows, batch);
    EntriesSumToBatch(saved, batch);
    ok := |sources| != 0;
    if |batch| > 0 {
      assert batch[0].source in Sources(batch);
    }
  }

  /** The rows `Keep` selects from `sources` are exactly the batch's sources,
      once each, with the versions their records get. */
  lemma SavedRows(rows: seq<LedgerRow>, batch: seq<InventoryRecord>)
    requires Grouped(rows)
    ensures var saved := Keep(Active(rows) + Ones(NewSources(Known(rows).Keys, batch)), batch);
            && (forall k :: 0 <= k < |saved| ==> saved[k].version == VersionOf(rows, saved[k].source))
            && (forall s :: s in Sources(batch) ==> exists k :: 0 <= k < |saved| && saved[k].source == s)
            && (forall k, l :: 0 <= k < l < |saved| ==> saved[k].source != saved[l].source)
  {
    var known := Known(rows).Keys;
    var srcs := Active(rows) + Ones(NewSources(known, batch));
    SourcesVersions(rows, known, batch);
    var saved := Keep(srcs, batch);
    forall s | s in Sources(batch) ensures exists k :: 0 <= k < |saved| && saved[k].source == s {
      var i :| 0 <= i < |srcs| && srcs[i].0 == s;
      var e := SourceEntry(srcs[i].0, srcs[i].1, CountOf(batch, srcs[i].0));
      assert e in saved;
    }
  }

  /** Appending one record adds its source. */
  lemma SourcesSnoc(batch: seq<InventoryRecord>)
    requires |batch| > 0
    ensures Sources(batch) == Sources(batch[..|batch| - 1]) + {batch[|batch| - 1].source}
  {
    var init := batch[..|batch| - 1];
    forall t | t in Sources(batch) ensures t in Sources(init) + {batch[|batch| - 1].source} {
      var i :| 0 <= i < |batch| && batch[i].source == t;
      if i < |batch| - 1 {
        assert init[i] == batch[i];
      }
    }
    forall t | t in Sources(init) ensures t in Sources(batch) {
      var i :| 0 <= i < |init| && init[i].source == t;
      assert batch[i] == init[i];
    }
  }

  /** Appending one record adds one to its source's count. */
  lemma CountOfSnoc(batch: seq<InventoryRecord>)
    requires |batch| > 0
    ensures forall s :: CountOf(batch, s) ==
              CountOf(batch[..|batch| - 1], s) + (if batch[|batch| - 1].source == s then 1 else 0)
  {
  }

  /** A source without records has count zero. */
  lemma {:induction false} CountOfAbsent(batch: seq<InventoryRecord>, s: string)
    requires s !in Sources(batch)
    ensures CountOf(batch, s) == 0
  {
    if |batch| > 0 {
      SourcesSnoc(batch);
      CountOfAbsent(batch[..|batch| - 1], s);
    }
  }

  /** Under GROUP BY, the increment loop gives every ledger source its
      maximum plus one, and nothing else. */
  lemma KnownIsLedgerPlusOne(rows: seq<LedgerRow>)
    requires Grouped(rows)
    ensures Known(rows).Keys == (if LedgerUsed(rows) then set i | 0 <= i < |rows| :: rows[i].source else {})
    ensures LedgerUsed(rows) ==> forall i :: 0 <= i < |rows| ==> Known(rows)[rows[i].source] == rows[i].version + 1
  {
    var act := Active(rows);
    if LedgerUsed(rows) {
      assert Assoc.Keys(act) == set i | 0 <= i < |rows| :: rows[i].source by {
        forall t | t in Assoc.Keys(act) ensures t in set i | 0 <= i < |rows| :: rows[i].source {
          var i :| 0 <= i < |act| && act[i].0 == t;
          assert rows[i].source == t;
        }
        forall i | 0 <= i < |rows| ensures rows[i].source in Assoc.Keys(act) {
          assert act[i].0 == rows[i].source;
        }
      }
      forall i | 0 <= i < |rows| ensures Known(rows)[rows[i].source] == rows[i].version + 1 {
        assert Assoc.IsLast(act, i);
      }
    }
  }

  /** Every entry of `sources` carries the version its source's records get. */
  lemma SourcesVersions(rows: seq<LedgerRow>, known: set<string>, batch: seq<InventoryRecord>)
    requires Grouped(rows) && known == Known(rows).Keys
    ensures var srcs := Active(rows) + Ones(NewSources(known, batch));
            && (forall i :: 0 <= i < |srcs| ==> srcs[i].1 == VersionOf(rows, srcs[i].0))
            && (forall i, j :: 0 <= i < j < |srcs| ==> srcs[i].0 != srcs[j].0)
            && (forall s :: s in Sources(batch) ==> exists i :: 0 <= i < |srcs| && srcs[i].0 == s)
  {
    KnownIsLedgerPlusOne(rows);
    var act := Active(rows);
    var news := Ones(NewSources(known, batch));
    var srcs := act + news;
    forall i | 0 <= i < |srcs| ensures srcs[i].1 == VersionOf(rows, srcs[i].0) {
      if i >= |act| {
        assert srcs[i] == news[i - |act|];
      }
    }
    forall s | s in Sources(batch) ensures exists i :: 0 <= i < |srcs| && srcs[i].0 == s {
      if s in known {
        var i :| 0 <= i < |rows| && rows[i].source == s;
        assert srcs[i].0 == s;
      } else {
        var j :| 0 <= j < |NewSources(known, batch)| && NewSources(known, batch)[j] == s;
        assert srcs[|act| + j].0 == s;
      }
    }
  }

  /** The version `save` hands out is the ledger maximum plus one for a known
      source and 1 for a new one (when the ledger is taken into account). */
  lemma VersionIsMaxPlusOne(rows: seq<LedgerRow>, s: string)
    requires Grouped(rows) && LedgerUsed(rows)
    ensures forall i :: 0 <= i < |rows| && rows[i].source == s ==> VersionOf(rows, s) == rows[i].version + 1
    ensures (forall i :: 0 <= i < |rows| ==> rows[i].source != s) ==> VersionOf(rows, s) == 1
  {
    KnownIsLedgerPlusOne(rows);
  }

  /** A falsy source in the first grouped row discards the whole ledger:
      every source restarts at version 1. */
  lemma FalsyFirstRowRestarts(rows: seq<LedgerRow>, s: string)
    requires !LedgerUsed(rows)
    ensures VersionOf(rows, s) == 1
  {
  }

  /** `rows` is what GROUP BY returns for the `(source, version)` pairs of `table`. */
  predicate GroupedFrom(table: seq<(string, int)>, rows: seq<LedgerRow>) {
    && Grouped(rows)
    && (forall t :: 0 <= t < |table| ==> Covers(rows, table[t]))
  }

  /** Some grouped row has the pair's source and a version at least the pair's. */
  predicate Covers(rows: seq<LedgerRow>, pair: (string, int)) {
    exists i :: 0 <= i < |rows| && rows[i].source == pair.0 && pair.1 <= rows[i].version
  }

  /** UNIQUE(source, version) survives: no row `save` writes repeats a pair
      already in the table. */
  lemma SavedPairsAreFresh(table: seq<(string, int)>, rows: seq<LedgerRow>, batch: seq<InventoryRecord>,
                           saved: seq<SourceEntry>)
    requires GroupedFrom(table, rows) && (|rows| == 0 || rows[0].source != "")
    requires forall k :: 0 <= k < |saved| ==> saved[k].version == VersionOf(rows, saved[k].source)
    ensures forall k, t :: 0 <= k < |saved| && 0 <= t < |table| ==>
              (saved[k].source, saved[k].version) != table[t]
  {
    forall k, t | 0 <= k < |saved| && 0 <= t < |table|
      ensures (saved[k].source, saved[k].version) != table[t]
    {
      var s := saved[k].source;
      assert Covers(rows, table[t]);
      var i :| 0 <= i < |rows| && rows[i].source == table[t].0 && table[t].1 <= rows[i].version;
      if s == table[t].0 {
        VersionIsMaxPlusOne(rows, s);
      }
    }
  }

  /** The number of records whose source lies in `S`. */
  function CountIn(batch: seq<InventoryRecord>, S: set<string>): nat {
    if |batch| == 0 then 0
    else CountIn(batch[..|batch| - 1], S) + (if batch[|batch| - 1].source in S then 1 else 0)
  }

  /** The sources named by a list of ledger rows. */
  function EntrySources(saved: seq<SourceEntry>): set<string> {
    set k | 0 <= k < |saved| :: saved[k].source
  }

  function SumEntries(saved: seq<SourceEntry>): int {
    if |saved| == 0 then 0 else SumEntries(saved[..|saved| - 1]) + saved[|saved| - 1].entries
  }

  lemma {:induction false} CountInAdd(batch: seq<InventoryRecord>, S: set<string>, s: string)
    requires s !in S
    ensures CountIn(batch, S + {s}) == CountIn(batch, S) + CountOf(batch, s)
  {
    if |batch| > 0 {
      CountInAdd(batch[..|batch| - 1], S, s);
    }
  }

  lemma {:induction false} CountInAll(batch: seq<InventoryRecord>, S: set<string>)
    requires Sources(batch) <= S
    ensures CountIn(batch, S) == |batch|
  {
    if |batch| > 0 {
      SourcesSnoc(batch);
      CountInAll(batch[..|batch| - 1], S);
    }
  }

  lemma {:induction false} SumIsCountIn(saved: seq<SourceEntry>, batch: seq<InventoryRecord>)
    requires forall k :: 0 <= k < |saved| ==> saved[k].entries == CountOf(batch, saved[k].source)
    requires forall k, l :: 0 <= k < l < |saved| ==> saved[k].source != saved[l].source
    ensures SumEntries(saved) == CountIn(batch, EntrySources(saved))
  {
    if |saved| > 0 {
      var init := saved[..|saved| - 1];
      var last := saved[|saved| - 1];
      assert forall k :: 0 <= k < |init| ==> init[k] == saved[k];
      SumIsCountIn(init, batch);
      var S := EntrySources(init);
      assert (EntrySources(saved)) == S + {last.source} by {
        forall t | t in S ensures t in EntrySources(saved) {
          var k :| 0 <= k < |init| && init[k].source == t;
          assert saved[k].source == t;
        }
      }
      assert last.source !in S;
      CountInAdd(batch, S, last.source);
      assert SumEntries(saved) == SumEntries(init) + last.entries;
      assert SumEntries(init) == CountIn(batch, S);
      assert last.entries == CountOf(batch, last.source);
    } else {
      assert EntrySources(saved) == {};
      CountInEmpty(batch);
    }
  }

  lemma {:induction false} CountInEmpty(batch: seq<InventoryRecord>)
    ensures CountIn(batch, {}) == 0
  {
    if |batch| > 0 {
      CountInEmpty(batch[..|batch| - 1]);
    }
  }

  /** The entry counts written add up to the size of the batch. */
  lemma EntriesSumToBatch(saved: seq<SourceEntry>, batch: seq<InventoryRecord>)
    requires forall k :: 0 <= k < |saved| ==> saved[k].entries == CountOf(batch, saved[k].source)
    requires forall k, l :: 0 <= k < l < |saved| ==> saved[k].source != saved[l].source
    requires forall s :: s in Sources(batch) ==> exists k :: 0 <= k < |saved| && saved[k].source == s
    ensures SumEntries(saved) == |batch|
  {
    SumIsCountIn(saved, batch);
    CountInAll(batch, EntrySources(saved));
  }
}
