/**
  The per-satellite queue-state transform `transform_satstats`
  (florasat_statistics/src/satstats.rs): a stream of `(sat_id, timestamp,
  queue_size)` records becomes, for every satellite, a list of states that
  starts with `(0, 0)` and, before each record's own state, repeats the
  previous queue size every 5 time units.
*/
module SatStats {

  /** One CSV row. */
  datatype Record = Record(satId: nat, timestamp: real, queueSize: nat)

  /** A queue size from time `start` on. */
  datatype State = State(start: real, qs: nat)

  datatype Satellite = Satellite(satId: nat, entries: seq<State>)

  /** The entry every satellite's list starts with. */
  const Seed: State := State(0.0, 0)

  /** The distance between padding entries. */
  const Spacing: real := 5.0

  /** Rust's `f32::round`: the nearest integer, ties away from zero. */
  function RoundHalfAway(x: real): (n: int)
    ensures x - 0.5 <= n as real <= x + 0.5
    ensures n as real - x == 0.5 ==> x >= 0.0
    ensures x - n as real == 0.5 ==> x < 0.0
  {
    if x >= 0.0 then (x + 0.5).Floor else -((-x + 0.5).Floor)
  }

  /** A measure for the padding loop: how many more padding entries fit at most. */
  function PaddingMeasure(from: real, until: real): (m: nat)
  {
    if from < until then (until - from).Floor + 1 else 0
  }

  /** The padding entries at `from`, `from + 5`, ... that lie strictly before `until`. */
  function Padding(from: real, qs: nat, until: real): (ps: seq<State>)
    decreases PaddingMeasure(from, until)
  {
    if from < until then [State(from, qs)] + Padding(from + Spacing, qs, until) else []
  }

  /**
    The padding is exactly the points `from + 5k` before `until`, all carrying
    the same queue size: entry `k` is at `from + 5k`, every entry is before
    `until`, and the next point would not be.
  */
  lemma {:induction false} PaddingShape(from: real, qs: nat, until: real)
    ensures var ps := Padding(from, qs, until);
      && (forall k :: 0 <= k < |ps| ==> ps[k] == State(from + Spacing * k as real, qs))
      && (forall k :: 0 <= k < |ps| ==> ps[k].start < until)
      && from + Spacing * |ps| as real >= until
    decreases PaddingMeasure(from, until)
  {
    if from < until {
      PaddingShape(from + Spacing, qs, until);
      var ps, rest := Padding(from, qs, until), Padding(from + Spacing, qs, until);
      assert ps == [State(from, qs)] + rest;
      forall k | 0 < k < |ps| ensures ps[k] == State(from + Spacing * k as real, qs) {
        assert ps[k] == rest[k - 1];
      }
    }
  }

  /** The time and queue size of the last record, `(0.0, 0)` before the first. */
  function Previous(rs: seq<Record>): (p: (real, nat))
  {
    if rs == [] then (0.0, 0) else (rs[|rs| - 1].timestamp, rs[|rs| - 1].queueSize)
  }

  /**
    What one record adds to its satellite's list: padding from the rounded
    previous time plus 5 with the previous queue size, then its own state.
  */
  function Step(prevTs: real, prevQs: nat, r: Record): (es: seq<State>)
  {
    Padding(RoundHalfAway(prevTs) as real + Spacing, prevQs, r.timestamp) + [State(r.timestamp, r.queueSize)]
  }

  /** The entries the records of one satellite add, in input order. */
  function History(rs: seq<Record>): (es: seq<State>)
  {
    if rs == [] then []
    else
      var front := rs[..|rs| - 1];
      History(front) + Step(Previous(front).0, Previous(front).1, rs[|rs| - 1])
  }

  /** The records with the given satellite id, in input order. */
  function RecordsOf(rs: seq<Record>, id: nat): (out: seq<Record>)
    ensures forall k :: 0 <= k < |out| ==> out[k].satId == id
  {
    if rs == [] then []
    else RecordsOf(rs[..|rs| - 1], id) + (if rs[|rs| - 1].satId == id then [rs[|rs| - 1]] else [])
  }

  /** The satellite ids that occur in the records. */
  function Ids(rs: seq<Record>): (ids: set<nat>)
  {
    set r | r in rs :: r.satId
  }

  /** The list of entries of satellite `id` after the records `rs`. */
  function EntriesOf(rs: seq<Record>, id: nat): (es: seq<State>)
  {
    [Seed] + History(RecordsOf(rs, id))
  }

  /** The open statistics hold each satellite's previous record after the records `prefix`. */
  ghost predicate OpenTracks(prefix: seq<Record>, open: map<nat, (real, nat)>)
  {
    && open.Keys == Ids(prefix)
    && (forall id :: id in open ==> open[id] == Previous(RecordsOf(prefix, id)))
    && (forall id :: id !in open ==> RecordsOf(prefix, id) == [])
  }

  /** Each satellite's list is its entries after the records `prefix`. */
  ghost predicate SatsTracks(prefix: seq<Record>, sats: map<nat, Satellite>)
  {
    && sats.Keys == Ids(prefix)
    && (forall id :: id in sats ==> sats[id] == Satellite(id, EntriesOf(prefix, id)))
  }

  /** The state of the transform after the records `prefix`. */
  ghost predicate Tracks(prefix: seq<Record>, open: map<nat, (real, nat)>, sats: map<nat, Satellite>)
  {
    OpenTracks(prefix, open) && SatsTracks(prefix, sats)
  }

  /**
    `transform_satstats`: one satellite per id in the input, keyed by its id.
    The source returns the values of this map in hash-map order.
  */
  method TransformSatStats(records: seq<Record>) returns (sats: map<nat, Satellite>)
    ensures sats.Keys == Ids(records)
    ensures forall id :: id in sats ==> sats[id] == Satellite(id, EntriesOf(records, id))
  {
    var open: map<nat, (real, nat)> := map[];
    sats := map[];
    var n := 0;
    TracksEmpty(records);
    while n < |records|
      invariant 0 <= n <= |records|
      invariant Tracks(records[..n], open, sats)
    {
      var record := records[n];
      var id := record.satId;
      var previous := if id in open then open[id] else (0.0, 0);
      var sat := if id in sats then sats[id] else Satellite(id, [Seed]);
      var entries := AppendStep(sat.entries, previous.0, previous.1, record);
      TracksSnoc(records, n, open, sats, previous, sat, entries);
      sats := sats[id := Satellite(id, entries)];
      open := open[id := (record.timestamp, record.queueSize)];
      n := n + 1;
    }
    TracksAll(records, open, sats);
  }

  /**
    The body of the record loop for one satellite (satstats.rs:85-99): the
    padding points from the rounded previous time plus 5, while they are
    before the record's time, with the previous queue size, then the record's
    own state.
  */
  method AppendStep(entries: seq<State>, oldTimestamp: real, oldQueueSize: nat, record: Record)
    returns (out: seq<State>)
    ensures out == entries + Step(oldTimestamp, oldQueueSize, record)
  {
    out := entries;
    var i := RoundHalfAway(oldTimestamp) as real + Spacing;
    while i < record.timestamp
      invariant out + Padding(i, oldQueueSize, record.timestamp)
             == entries + Padding(RoundHalfAway(oldTimestamp) as real + Spacing, oldQueueSize, record.timestamp)
      decreases PaddingMeasure(i, record.timestamp)
    {
      out := out + [State(i, oldQueueSize)];
      i := i + Spacing;
    }
    assert Padding(i, oldQueueSize, record.timestamp) == [];
    assert out == entries + Padding(RoundHalfAway(oldTimestamp) as real + Spacing, oldQueueSize, record.timestamp);
    out := out + [State(record.timestamp, record.queueSize)];
  }

  /** Before the first record no satellite is known. */
  lemma TracksEmpty(records: seq<Record>)
    ensures Tracks(records[..0], map[], map[])
  {
    assert records[..0] == [];
  }

  /** After the last record the maps describe the whole input. */
  lemma TracksAll(records: seq<Record>, open: map<nat, (real, nat)>, sats: map<nat, Satellite>)
    requires Tracks(records[..|records|], open, sats)
    ensures sats.Keys == Ids(records)
    ensures forall id :: id in sats ==> sats[id] == Satellite(id, EntriesOf(records, id))
  {
    assert records[..|records|] == records;
  }

  /** The defaults the source uses for a new satellite agree with its empty history. */
  lemma TracksLookup(prefix: seq<Record>, open: map<nat, (real, nat)>, sats: map<nat, Satellite>, id: nat)
    requires Tracks(prefix, open, sats)
    ensures (if id in open then open[id] else (0.0, 0)) == Previous(RecordsOf(prefix, id))
    ensures (if id in sats then sats[id] else Satellite(id, [Seed])) == Satellite(id, EntriesOf(prefix, id))
  {
  }

  /**
    Handling one more record with its step, from the previous state and the
    list the maps hold for its satellite (or their defaults), keeps the
    transform's state in line with the records.
  */
  lemma TracksSnoc(records: seq<Record>, n: nat, open: map<nat, (real, nat)>, sats: map<nat, Satellite>,
                   previous: (real, nat), sat: Satellite, entries: seq<State>)
    requires n < |records| && Tracks(records[..n], open, sats)
    requires previous == if records[n].satId in open then open[records[n].satId] else (0.0, 0)
    requires sat == if records[n].satId in sats then sats[records[n].satId] else Satellite(records[n].satId, [Seed])
    requires entries == sat.entries + Step(previous.0, previous.1, records[n])
    ensures var r := records[n];
      Tracks(records[..n + 1], open[r.satId := (r.timestamp, r.queueSize)], sats[r.satId := Satellite(r.satId, entries)])
  {
    var rs, r := records[..n], records[n];
    assert records[..n + 1] == rs + [r];
    TracksLookup(rs, open, sats, r.satId);
    OpenTracksSnoc(rs, r, open);
    SatsTracksSnoc(rs, r, sats, entries);
  }

  lemma OpenTracksSnoc(rs: seq<Record>, r: Record, open: map<nat, (real, nat)>)
    requires OpenTracks(rs, open)
    ensures OpenTracks(rs + [r], open[r.satId := (r.timestamp, r.queueSize)])
  {
    var open' := open[r.satId := (r.timestamp, r.queueSize)];
    IdsSnoc(rs, r);
    forall id | id in open' ensures open'[id] == Previous(RecordsOf(rs + [r], id)) {
      RecordsOfSnoc(rs, r, id);
    }
    forall id | id !in open' ensures RecordsOf(rs + [r], id) == [] {
      RecordsOfSnoc(rs, r, id);
    }
  }

  lemma SatsTracksSnoc(rs: seq<Record>, r: Record, sats: map<nat, Satellite>, entries: seq<State>)
    requires SatsTracks(rs, sats)
    requires var p := Previous(RecordsOf(rs, r.satId));
      entries == EntriesOf(rs, r.satId) + Step(p.0, p.1, r)
    ensures SatsTracks(rs + [r], sats[r.satId := Satellite(r.satId, entries)])
  {
    var sats' := sats[r.satId := Satellite(r.satId, entries)];
    IdsSnoc(rs, r);
    forall id | id in sats' ensures sats'[id] == Satellite(id, EntriesOf(rs + [r], id)) {
      if id == r.satId {
        OwnRecordAppends(rs, r);
      } else {
        OtherSatelliteUnaffected(rs, r, id);
      }
    }
  }

  lemma IdsSnoc(rs: seq<Record>, r: Record)
    ensures Ids(rs + [r]) == Ids(rs) + {r.satId}
  {
  }

  /** One more record joins its own satellite's records and no other's. */
  lemma RecordsOfSnoc(rs: seq<Record>, r: Record, id: nat)
    ensures RecordsOf(rs + [r], id) == RecordsOf(rs, id) + (if r.satId == id then [r] else [])
  {
    assert (rs + [r])[..|rs|] == rs;
  }

  // ---------------------------------------------------------------------------
  // Properties of the entry lists

  /** The rounding is the only integer within one half of `x` that breaks ties away from zero. */
  lemma RoundHalfAwayUnique(x: real, m: int)
    requires x - 0.5 <= m as real <= x + 0.5
    requires m as real - x == 0.5 ==> x >= 0.0
    requires x - m as real == 0.5 ==> x < 0.0
    ensures m == RoundHalfAway(x)
  {
  }

  /** Every list starts with the seed state. */
  lemma EntriesStartWithSeed(rs: seq<Record>, id: nat)
    ensures |EntriesOf(rs, id)| >= 1 && EntriesOf(rs, id)[0] == Seed
  {
  }

  /** The last entry of a satellite with records is the state of its last record. */
  lemma LastEntryIsLastRecord(rs: seq<Record>, id: nat)
    requires RecordsOf(rs, id) != []
    ensures var es, own := EntriesOf(rs, id), RecordsOf(rs, id);
      es[|es| - 1] == State(own[|own| - 1].timestamp, own[|own| - 1].queueSize)
  {
  }

  /** A satellite without records keeps only the seed state. */
  lemma NoRecordsOnlySeed(rs: seq<Record>, id: nat)
    requires id !in Ids(rs)
    ensures EntriesOf(rs, id) == [Seed]
  {
    RecordsOfAbsent(rs, id);
  }

  lemma {:induction false} RecordsOfAbsent(rs: seq<Record>, id: nat)
    requires id !in Ids(rs)
    ensures RecordsOf(rs, id) == []
  {
    if rs != [] {
      var front := rs[..|rs| - 1];
      assert Ids(front) <= Ids(rs) by {
        forall x | x in Ids(front) ensures x in Ids(rs) {
          var r :| r in front && r.satId == x;
          assert r in rs;
        }
      }
      assert rs[|rs| - 1] in rs;
      RecordsOfAbsent(front, id);
    }
  }

  /** A record of another satellite leaves this satellite's list as it is. */
  lemma OtherSatelliteUnaffected(rs: seq<Record>, r: Record, id: nat)
    requires r.satId != id
    ensures EntriesOf(rs + [r], id) == EntriesOf(rs, id)
  {
    RecordsOfSnoc(rs, r, id);
    assert RecordsOf(rs + [r], id) == RecordsOf(rs, id);
  }

  /** A record of this satellite adds its own step to its list. */
  lemma OwnRecordAppends(rs: seq<Record>, r: Record)
    ensures var p := Previous(RecordsOf(rs, r.satId));
      EntriesOf(rs + [r], r.satId) == EntriesOf(rs, r.satId) + Step(p.0, p.1, r)
  {
    RecordsOfSnoc(rs, r, r.satId);
    var own := RecordsOf(rs + [r], r.satId);
    assert own[..|own| - 1] == RecordsOf(rs, r.satId);
  }

  /**
    Before the first record of a satellite comes the padding from 5 on with
    queue size 0: the list starts with the seed, the points 5, 10, ... before
    that record's time with queue size 0, and then that record's state.
  */
  lemma FirstRecordPadding(rs: seq<Record>, id: nat)
    requires RecordsOf(rs, id) != []
    ensures var first := RecordsOf(rs, id)[0];
      var head := [Seed] + Padding(Spacing, 0, first.timestamp) + [State(first.timestamp, first.queueSize)];
      |head| <= |EntriesOf(rs, id)| && EntriesOf(rs, id)[..|head|] == head
  {
    var own := RecordsOf(rs, id);
    HistoryStartsWithFirstStep(own);
    assert RoundHalfAway(0.0) == 0;
  }

  /** The history of a non-empty run starts with the step of its first record from `(0, 0)`. */
  lemma {:induction false} HistoryStartsWithFirstStep(xs: seq<Record>)
    requires xs != []
    ensures var st := Step(0.0, 0, xs[0]);
      |st| <= |History(xs)| && History(xs)[..|st|] == st
  {
    var st := Step(0.0, 0, xs[0]);
    var front := xs[..|xs| - 1];
    if |xs| == 1 {
      assert front == [];
    } else {
      assert front[0] == xs[0];
      HistoryStartsWithFirstStep(front);
      var p := Previous(front);
      assert History(xs) == History(front) + Step(p.0, p.1, xs[|xs| - 1]);
      assert History(xs)[..|st|] == History(front)[..|st|];
    }
  }

  /**
    Between two consecutive records of a satellite, the list holds the
    padding from the earlier record's rounded time plus 5 on, with the earlier
    record's queue size, and then the later record's state.
  */
  lemma ConsecutiveRecords(xs: seq<Record>, k: nat)
    requires 0 < k < |xs|
    ensures History(xs[..k + 1]) == History(xs[..k])
      + Padding(RoundHalfAway(xs[k - 1].timestamp) as real + Spacing, xs[k - 1].queueSize, xs[k].timestamp)
      + [State(xs[k].timestamp, xs[k].queueSize)]
  {
    assert xs[..k + 1][..k] == xs[..k];
  }
}
