/** The price-series store of src/main.rs: a tab-separated record becomes a
    minute sample (generate_min_data), and the line loop of `extract` files
    each sample's price under its instrument key and minute offset. The
    decoded text of each archive member is the input; unpacking and
    decompression are outside the model. */
module Ingest {
  import opened Wrappers
  import opened Text
  import opened Config
  import opened Records

  /** Minute offset -> price text, for one instrument. */
  type Series = map<int, string>

  /** Instrument key -> its series. */
  type Store = map<string, Series>

  // ---------------------------------------------------------------------
  // Record -> minute sample

  /** `(ms - BASE_TIME) / MILLIS_IN_MIN` in i64: whole minutes between the
      epoch and the timestamp, with Rust's `/` rounding toward zero (Dafny's
      own `/` rounds toward negative infinity on a negative dividend). */
  function MinuteOffset(ms: int): (m: int)
    ensures ms >= BASE_TIME ==>
      m >= 0 && BASE_TIME + m * MILLIS_IN_MIN <= ms < BASE_TIME + (m + 1) * MILLIS_IN_MIN
    ensures ms < BASE_TIME ==>
      m <= 0 && BASE_TIME + (m - 1) * MILLIS_IN_MIN < ms <= BASE_TIME + m * MILLIS_IN_MIN
  {
    var elapsed := ms - BASE_TIME;
    if elapsed >= 0 then elapsed / MILLIS_IN_MIN else -((-elapsed) / MILLIS_IN_MIN)
  }

  /** What generate_min_data needs of the fields of a line for none of its
      `unwrap`s to panic: ten fields, field 5 an i64, and `field5 - BASE_TIME`
      within i64. */
  predicate WellFormedFields(fields: seq<string>): (ok: bool)
    ensures ok ==> (|fields| >= 10 && ParseI64(fields[5]).Some? &&
                    I64_MIN <= ParseI64(fields[5]).value - BASE_TIME <= I64_MAX)
  {
    && |fields| >= 10
    && ParseI64(fields[5]).Some?
    && ParseI64(fields[5]).value - BASE_TIME >= I64_MIN
  }

  predicate WellFormedLine(line: string) {
    WellFormedFields(Split(line, '\t'))
  }

  /** generate_min_data: price from field 9, timestamp from field 5, key
      components from fields 2, 3 and 4. */
  function GenerateMinData(fields: seq<string>): (d: MinData)
    requires WellFormedFields(fields)
    ensures d.Id() == Key(fields[2], fields[3], fields[4])
    ensures d.price == fields[9]
    ensures d.time == MinuteOffset(ParseI64(fields[5]).value)
  {
    MinData(fields[9], MinuteOffset(ParseI64(fields[5]).value), fields[2], fields[3], fields[4])
  }

  /** Every non-empty line is one that generate_min_data can read without
      panicking. */
  predicate LinesWellFormed(lines: seq<string>) {
    forall i :: 0 <= i < |lines| && lines[i] != "" ==> WellFormedLine(lines[i])
  }

  /** The samples that the lines yield, in line order; empty lines yield none. */
  function Samples(lines: seq<string>): (ds: seq<MinData>)
    requires LinesWellFormed(lines)
    ensures |ds| <= |lines|
    ensures (forall i :: 0 <= i < |lines| ==> lines[i] == "") ==> ds == []
    decreases |lines|
  {
    if |lines| == 0 then []
    else
      var init, l := lines[..|lines| - 1], lines[|lines| - 1];
      assert LinesWellFormed(init) by {
        forall i | 0 <= i < |init| && init[i] != "" ensures WellFormedLine(init[i]) {
          assert init[i] == lines[i];
        }
      }
      if l == "" then Samples(init) else Samples(init) + [GenerateMinData(Split(l, '\t'))]
  }

  /** The non-empty lines, in order. */
  function NonBlank(lines: seq<string>): (r: seq<string>)
    ensures forall i :: 0 <= i < |r| ==> r[i] != "" && r[i] in lines
    ensures multiset(r) == multiset(lines)["" := 0]
    decreases |lines|
  {
    if |lines| == 0 then []
    else
      var init, l := lines[..|lines| - 1], lines[|lines| - 1];
      assert lines == init + [l];
      if l == "" then NonBlank(init)
      else NonBlank(init) + [l]
  }

  /** Empty lines contribute nothing and every other line contributes exactly
      one sample, built from that line. */
  lemma {:induction false} SamplesOfNonBlankLines(lines: seq<string>)
    requires LinesWellFormed(lines)
    ensures |Samples(lines)| == |NonBlank(lines)|
    ensures forall i :: 0 <= i < |NonBlank(lines)| ==>
      WellFormedLine(NonBlank(lines)[i]) &&
      Samples(lines)[i] == GenerateMinData(Split(NonBlank(lines)[i], '\t'))
    decreases |lines|
  {
    if |lines| > 0 {
      var init := lines[..|lines| - 1];
      assert LinesWellFormed(init) by {
        forall i | 0 <= i < |init| && init[i] != "" ensures WellFormedLine(init[i]) {
          assert init[i] == lines[i];
        }
      }
      SamplesOfNonBlankLines(init);
    }
  }

  // ---------------------------------------------------------------------
  // The store

  /** Filing one sample: the series of its key gets the price at its offset,
      a new series being created on first sight of the key. */
  function InsertRecord(s: Store, d: MinData): (r: Store)
    ensures r.Keys == s.Keys + {d.Id()}
    ensures d.time in r[d.Id()] && r[d.Id()][d.time] == d.price
    ensures d.Id() !in s ==> r[d.Id()] == map[d.time := d.price]
    ensures d.Id() in s ==> r[d.Id()].Keys == s[d.Id()].Keys + {d.time}
    ensures d.Id() in s ==> forall t :: t in s[d.Id()] && t != d.time ==> r[d.Id()][t] == s[d.Id()][t]
    ensures forall k :: k in s && k != d.Id() ==> r[k] == s[k]
  {
    var id := d.Id();
    if id in s then s[id := s[id][d.time := d.price]] else s[id := map[d.time := d.price]]
  }

  /** The store after filing the samples one after another. */
  function FileSamples(s: Store, recs: seq<MinData>): (r: Store)
    ensures forall k :: k in s ==> k in r && s[k].Keys <= r[k].Keys
    ensures forall i :: 0 <= i < |recs| ==> recs[i].Id() in r && recs[i].time in r[recs[i].Id()]
    decreases |recs|
  {
    if |recs| == 0 then s
    else
      var init := recs[..|recs| - 1];
      assert forall i :: 0 <= i < |init| ==> recs[i] == init[i];
      InsertRecord(FileSamples(s, init), recs[|recs| - 1])
  }

  /** The ids of the samples. */
  function Ids(recs: seq<MinData>): set<string> {
    set i | 0 <= i < |recs| :: recs[i].Id()
  }

  /** Filing creates no key of its own: the keys afterwards are the old
      keys and the samples' ids, nothing else. */
  lemma {:induction false} FileSamplesKeys(s: Store, recs: seq<MinData>)
    ensures FileSamples(s, recs).Keys == s.Keys + Ids(recs)
    decreases |recs|
  {
    if |recs| > 0 {
      var init, d := recs[..|recs| - 1], recs[|recs| - 1];
      FileSamplesKeys(s, init);
      assert recs == init + [d];
      IdsSnoc(init, d);
    }
  }

  lemma IdsSnoc(recs: seq<MinData>, d: MinData)
    ensures Ids(recs + [d]) == Ids(recs) + {d.Id()}
  {
    var r := recs + [d];
    assert forall i :: 0 <= i < |recs| ==> r[i] == recs[i];
    assert r[|recs|] == d;
    forall k | k in Ids(r) ensures k in Ids(recs) + {d.Id()} {
      var i :| 0 <= i < |r| && r[i].Id() == k;
      if i < |recs| {
        assert recs[i].Id() == k;
      }
    }
  }

  /** The price filed under (id, t), if any. */
  function Lookup(s: Store, id: string, t: int): Option<string> {
    if id in s && t in s[id] then Some(s[id][t]) else None
  }

  /** d is a sample for (id, t). */
  predicate IsFor(d: MinData, id: string, t: int) {
    d.Id() == id && d.time == t
  }

  /** recs[i] is the last sample for (id, t). */
  predicate IsLastFor(recs: seq<MinData>, i: int, id: string, t: int) {
    0 <= i < |recs| && IsFor(recs[i], id, t) &&
    forall j :: i < j < |recs| ==> !IsFor(recs[j], id, t)
  }

  /** The price of the last sample for (id, t), if there is one. */
  function LastWrite(recs: seq<MinData>, id: string, t: int): (r: Option<string>)
    ensures r.Some? <==> exists i :: 0 <= i < |recs| && IsFor(recs[i], id, t)
    ensures r.Some? ==> exists i :: IsLastFor(recs, i, id, t) && r.value == recs[i].price
    decreases |recs|
  {
    if |recs| == 0 then None
    else
      var d := recs[|recs| - 1];
      if IsFor(d, id, t) then
        assert IsLastFor(recs, |recs| - 1, id, t);
        Some(d.price)
      else
        var init := recs[..|recs| - 1];
        var r := LastWrite(init, id, t);
        assert forall i :: 0 <= i < |init| ==> recs[i] == init[i];
        assert forall i :: IsLastFor(init, i, id, t) ==> IsLastFor(recs, i, id, t);
        r
  }

  /** Last write wins: after ingestion the price at (id, t) is that of the
      last sample for (id, t), and what was there before otherwise. */
  lemma {:induction false} IngestLastWriteWins(s: Store, recs: seq<MinData>, id: string, t: int)
    ensures Lookup(FileSamples(s, recs), id, t) ==
      if LastWrite(recs, id, t).Some? then LastWrite(recs, id, t) else Lookup(s, id, t)
    decreases |recs|
  {
    if |recs| > 0 {
      IngestLastWriteWins(s, recs[..|recs| - 1], id, t);
    }
  }

  /** Two samples for the same key and offset: the price of the later one is
      the one stored. */
  lemma DuplicateOffsetLaterWins(s: Store, first: MinData, second: MinData)
    requires first.Id() == second.Id() && first.time == second.time
    ensures Lookup(FileSamples(s, [first, second]), second.Id(), second.time) == Some(second.price)
  {
    IngestLastWriteWins(s, [first, second], second.Id(), second.time);
  }

  /** Ingesting two batches one after the other is ingesting their
      concatenation. */
  lemma {:induction false} IngestConcat(s: Store, a: seq<MinData>, b: seq<MinData>)
    ensures FileSamples(s, a + b) == FileSamples(FileSamples(s, a), b)
    decreases |b|
  {
    if |b| == 0 {
      assert a + b == a;
    } else {
      assert (a + b)[..|a + b| - 1] == a + b[..|b| - 1];
      IngestConcat(s, a, b[..|b| - 1]);
    }
  }

  /** Every key of a store holds at least two '-', which is what the strategy
      needs to take the exchange and coins back out of it. */
  predicate KeysSplit(s: Store) {
    forall k :: k in s ==> |Split(k, '-')| >= 3
  }

  lemma {:induction false} IngestKeepsKeysSplit(s: Store, recs: seq<MinData>)
    requires KeysSplit(s)
    ensures KeysSplit(FileSamples(s, recs))
    decreases |recs|
  {
    if |recs| > 0 {
      IngestKeepsKeysSplit(s, recs[..|recs| - 1]);
      var d := recs[|recs| - 1];
      KeyHasThreePieces(d.exchangeId, d.preCoin, d.postCoin);
    }
  }

  // ---------------------------------------------------------------------
  // The line loop of `extract`

  lemma SamplesSnoc(lines: seq<string>)
    requires |lines| > 0 && LinesWellFormed(lines)
    ensures LinesWellFormed(lines[..|lines| - 1])
    ensures var l := lines[|lines| - 1];
      Samples(lines) == if l == "" then Samples(lines[..|lines| - 1])
                        else Samples(lines[..|lines| - 1]) + [GenerateMinData(Split(l, '\t'))]
  {
    PrefixWellFormed(lines, |lines| - 1);
  }

  lemma IngestSnoc(s: Store, recs: seq<MinData>, d: MinData)
    ensures FileSamples(s, recs + [d]) == InsertRecord(FileSamples(s, recs), d)
  {
    assert (recs + [d])[..|recs|] == recs;
  }

  lemma PrefixWellFormed(lines: seq<string>, n: nat)
    requires n <= |lines| && LinesWellFormed(lines)
    ensures LinesWellFormed(lines[..n])
  {
    assert forall i :: 0 <= i < n ==> lines[..n][i] == lines[i];
  }

  /** One pass of the line loop: an empty line is skipped, any other line
      is read by generate_min_data and filed in place, with `get_mut` and
      `insert` on the series of its key or a new series holding only it. */
  method FileLine(store0: Store, l: string) returns (store: Store)
    requires l != "" ==> WellFormedLine(l)
    ensures l == "" ==> store == store0
    ensures l != "" ==> store == InsertRecord(store0, GenerateMinData(Split(l, '\t')))
  {
    store := store0;
    if |l| > 0 {
      var line := Split(l, '\t');
      var data := GenerateMinData(line);
      var id := data.Id();
      if id in store {
        store := store[id := store[id][data.time := data.price]];
      } else {
        store := store[id := map[data.time := data.price]];
      }
    }
  }

  /** Filing the samples of one more line. */
  lemma FileSamplesOfLine(store0: Store, lines: seq<string>, i: nat)
    requires i < |lines| && LinesWellFormed(lines)
    ensures LinesWellFormed(lines[..i]) && LinesWellFormed(lines[..i + 1])
    ensures lines[i] != "" ==> WellFormedLine(lines[i])
    ensures FileSamples(store0, Samples(lines[..i + 1])) ==
      if lines[i] == "" then FileSamples(store0, Samples(lines[..i]))
      else InsertRecord(FileSamples(store0, Samples(lines[..i])), GenerateMinData(Split(lines[i], '\t')))
  {
    PrefixWellFormed(lines, i);
    PrefixWellFormed(lines, i + 1);
    SamplesSnoc(lines[..i + 1]);
    assert lines[..i + 1][..i] == lines[..i] && lines[..i + 1][i] == lines[i];
    if lines[i] != "" {
      IngestSnoc(store0, Samples(lines[..i]), GenerateMinData(Split(lines[i], '\t')));
    }
  }

  /** The line loop of `extract` over the decoded text of one archive member:
      split on '\n', skip empty lines, file every other line's sample. */
  method IngestContent(store0: Store, content: string) returns (store: Store)
    requires LinesWellFormed(Split(content, '\n'))
    ensures store == FileSamples(store0, Samples(Split(content, '\n')))
  {
    var lines := Split(content, '\n');
    store := store0;
    for i := 0 to |lines|
      invariant LinesWellFormed(lines[..i])
      invariant store == FileSamples(store0, Samples(lines[..i]))
    {
      FileSamplesOfLine(store0, lines, i);
      store := FileLine(store, lines[i]);
    }
    assert lines[..|lines|] == lines;
  }

  /** The samples of several archive members, member after member. */
  function AllSamples(contents: seq<string>): seq<MinData>
    requires forall i :: 0 <= i < |contents| ==> LinesWellFormed(Split(contents[i], '\n'))
    decreases |contents|
  {
    if |contents| == 0 then []
    else AllSamples(contents[..|contents| - 1]) + Samples(Split(contents[|contents| - 1], '\n'))
  }

  /** `extract` from the decoded members on: one store shared by all members,
      filled member by member in the order the directory listing gives. */
  method Extract(contents: seq<string>) returns (store: Store)
    requires forall i :: 0 <= i < |contents| ==> LinesWellFormed(Split(contents[i], '\n'))
    ensures store == FileSamples(map[], AllSamples(contents))
    ensures KeysSplit(store)
  {
    store := map[];
    for j := 0 to |contents|
      invariant store == FileSamples(map[], AllSamples(contents[..j]))
    {
      assert contents[..j + 1][..j] == contents[..j];
      store := IngestContent(store, contents[j]);
      IngestConcat(map[], AllSamples(contents[..j]), Samples(Split(contents[j], '\n')));
    }
    assert contents[..|contents|] == contents;
    IngestKeepsKeysSplit(map[], AllSamples(contents));
  }

  // ---------------------------------------------------------------------
  // Minute offsets

  lemma OffsetOfEpoch()
    ensures MinuteOffset(BASE_TIME) == 0
  {
  }

  /** Every millisecond of the first minute after the epoch lies in minute 0. */
  lemma OffsetOfFirstMinute(ms: int)
    requires BASE_TIME <= ms < BASE_TIME + MILLIS_IN_MIN
    ensures MinuteOffset(ms) == 0
  {
  }

  /** Truncation toward zero: the last minute before the epoch is filed as
      minute 0 too, where a rounding-down division would give -1. */
  lemma OffsetTruncatesBeforeEpoch(ms: int)
    requires BASE_TIME - MILLIS_IN_MIN < ms < BASE_TIME
    ensures MinuteOffset(ms) == 0
    ensures (ms - BASE_TIME) / MILLIS_IN_MIN == -1
  {
  }

  /** On whole-minute timestamps the offset is exact, so distinct such
      timestamps get distinct offsets. */
  lemma OffsetOfWholeMinute(m: int)
    ensures MinuteOffset(BASE_TIME + m * MILLIS_IN_MIN) == m
  {
    var ms := BASE_TIME + m * MILLIS_IN_MIN;
    var r := MinuteOffset(ms);
    if m >= 0 {
      assert r * MILLIS_IN_MIN <= m * MILLIS_IN_MIN < (r + 1) * MILLIS_IN_MIN;
    } else {
      assert (r - 1) * MILLIS_IN_MIN < m * MILLIS_IN_MIN <= r * MILLIS_IN_MIN;
    }
  }

  /** Later timestamps never get earlier offsets. */
  lemma OffsetMonotone(ms1: int, ms2: int)
    requires ms1 <= ms2
    ensures MinuteOffset(ms1) <= MinuteOffset(ms2)
  {
  }
}
