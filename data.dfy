/**
 * Record enrichment: merging extra fields into a record and adding, for each
 * period, the start of the bucket that the record's `_timestamp` falls in.
 */
module Data {
  import opened Wrappers
  import opened Calendar
  import opened Records
  import opened TimeUtils

  /** `add_fields(record, **fields)`: `fields` laid over `record`. */
  function AddFields(record: Record, fields: Record): Record {
    Merge(record, fields)
  }

  /** A field passed to `add_fields` replaces the record's own value. */
  lemma AddFieldsExamples()
    ensures AddFields(map[], map["foo" := Text("bar")]) == map["foo" := Text("bar")]
    ensures AddFields(map["foo" := Text("foo")], map["foo" := Text("bar")]) == map["foo" := Text("bar")]
  {
  }

  /** The five keys that hold bucket starts. */
  const MetaKeys: set<string> :=
    {"_hour_start_at", "_day_start_at", "_week_start_at", "_month_start_at", "_quarter_start_at"}

  lemma EveryPeriodListed(p: Period)
    ensures p in Periods
  {
  }

  /** The meta keys are exactly the periods' `start_at_key`s; there are five. */
  lemma MetaKeysAreStartKeys()
    ensures MetaKeys == set p | p in Periods :: StartAtKey(p)
    ensures |MetaKeys| == 5
  {
    MetaKeysCount();
    assert StartAtKey(Hour) == "_hour_start_at";
    assert StartAtKey(Day) == "_day_start_at";
    assert StartAtKey(Week) == "_week_start_at";
    assert StartAtKey(Month) == "_month_start_at";
    assert StartAtKey(Quarter) == "_quarter_start_at";
    assert Periods[0] == Hour && Periods[1] == Day && Periods[2] == Week;
    assert Periods[3] == Month && Periods[4] == Quarter;
    forall k | k in set p | p in Periods :: StartAtKey(p)
      ensures k in MetaKeys
    {
      var p :| p in Periods && StartAtKey(p) == k;
      match p
      case Hour =>
      case Day =>
      case Week =>
      case Month =>
      case Quarter =>
    }
  }

  lemma MetaKeysCount()
    ensures |MetaKeys| == 5
  {
    var a, b, c, d, e := "_hour_start_at", "_day_start_at", "_week_start_at", "_month_start_at", "_quarter_start_at";
    assert |a| == 14 && |b| == 13 && |c| == 14 && |d| == 15 && |e| == 17;
    assert a[1] != c[1];
    assert |{d, e}| == 2;
    assert |{c, d, e}| == 3;
    assert |{b, c, d, e}| == 4;
    assert |{a, b, c, d, e}| == 5;
  }

  /** Each period's `start_at_key` is a meta key. */
  lemma StartAtKeyIsMetaKey(p: Period)
    ensures StartAtKey(p) in MetaKeys
  {
    MetaKeysAreStartKeys();
    EveryPeriodListed(p);
  }

  /** `_timestamp` is not one of the meta keys. */
  lemma TimestampNotMetaKey()
    ensures "_timestamp" !in MetaKeys
  {
  }

  /** The value `add_meta_fields` stores for a period: its bucket start of `t`. */
  function StartStamp(t: DateTime): Period -> Value {
    p => Timestamp(Start(p, t))
  }

  /**
   * The record after the loop of `add_meta_fields` has run over `ps`, every
   * step laying `{start_at_key: stamp(period)}` over the record so far.
   */
  function WithStarts(record: Record, stamp: Period -> Value, ps: seq<Period>): Record
    decreases |ps|
  {
    if ps == [] then record
    else
      var p := ps[|ps| - 1];
      AddFields(WithStarts(record, stamp, ps[..|ps| - 1]), map[StartAtKey(p) := stamp(p)])
  }

  /** After the steps for `ps`, the record has a key for each period of `ps` besides its own. */
  lemma {:induction false} WithStartsKeys(record: Record, stamp: Period -> Value, ps: seq<Period>)
    ensures WithStarts(record, stamp, ps).Keys == record.Keys + (set p | p in ps :: StartAtKey(p))
    decreases |ps|
  {
    if ps != [] {
      var init := ps[..|ps| - 1];
      var last := ps[|ps| - 1];
      WithStartsKeys(record, stamp, init);
      assert ps == init + [last];
      assert (set p | p in ps :: StartAtKey(p)) == (set p | p in init :: StartAtKey(p)) + {StartAtKey(last)};
    }
  }

  /**
   * After the steps for `ps`, each period of `ps` has its stamp under its key,
   * and every other key holds what it held before.
   */
  lemma {:induction false} WithStartsValues(record: Record, stamp: Period -> Value, ps: seq<Period>)
    ensures var r := WithStarts(record, stamp, ps);
      && (forall p :: p in ps ==> StartAtKey(p) in r && r[StartAtKey(p)] == stamp(p))
      && (forall k :: k in record && (forall p :: p in ps ==> StartAtKey(p) != k) ==> k in r && r[k] == record[k])
    decreases |ps|
  {
    if ps != [] {
      var init := ps[..|ps| - 1];
      var last := ps[|ps| - 1];
      WithStartsValues(record, stamp, init);
      assert ps == init + [last];
      var r := WithStarts(record, stamp, ps);
      forall p | p in ps
        ensures StartAtKey(p) in r && r[StartAtKey(p)] == stamp(p)
      {
        if StartAtKey(p) == StartAtKey(last) {
          StartAtKeyInjective(p, last);
        } else {
          assert p in init;
        }
      }
    }
  }

  /** After the steps for all periods, each meta key holds its period's stamp. */
  lemma AllPeriodsStamped(record: Record, stamp: Period -> Value)
    ensures var r := WithStarts(record, stamp, Periods);
      && r.Keys == record.Keys + MetaKeys
      && (forall p :: StartAtKey(p) in r && r[StartAtKey(p)] == stamp(p))
      && (forall k :: k in record && k !in MetaKeys ==> r[k] == record[k])
  {
    WithStartsKeys(record, stamp, Periods);
    WithStartsValues(record, stamp, Periods);
    MetaKeysAreStartKeys();
    forall p ensures p in Periods {
      EveryPeriodListed(p);
    }
  }

  /**
   * `add_meta_fields`: a record without `_timestamp` is returned as it is; a
   * `_timestamp` that is not a date-time makes `start` fail; otherwise one
   * bucket start per period is added.
   */
  function WithMetaFields(record: Record): (r: Option<Record>)
    ensures r.None? <==> "_timestamp" in record && !record["_timestamp"].Timestamp?
  {
    if "_timestamp" !in record then Some(record)
    else if !record["_timestamp"].Timestamp? then None
    else Some(WithStarts(record, StartStamp(record["_timestamp"].at), Periods))
  }

  /** `add_meta_fields`, looping over the periods and rebinding the record. */
  method AddMetaFields(record: Record) returns (r: Option<Record>)
    ensures r == WithMetaFields(record)
  {
    if "_timestamp" !in record {
      return Some(record);
    }
    var current := record;
    for i := 0 to |Periods|
      invariant "_timestamp" in current && current["_timestamp"] == record["_timestamp"]
      invariant record["_timestamp"].Timestamp? ==>
        current == WithStarts(record, StartStamp(record["_timestamp"].at), Periods[..i])
      invariant !record["_timestamp"].Timestamp? ==> i == 0
    {
      var stamp := current["_timestamp"];
      if !stamp.Timestamp? {
        return None;
      }
      var p := Periods[i];
      assert Periods[..i + 1][..i] == Periods[..i];
      StartAtKeyNotTimestamp(p);
      current := AddFields(current, map[StartAtKey(p) := Timestamp(Start(p, stamp.at))]);
      assert StartStamp(stamp.at)(p) == Timestamp(Start(p, stamp.at));
    }
    assert Periods[..|Periods|] == Periods;
    return Some(current);
  }

  lemma StartAtKeyNotTimestamp(p: Period)
    ensures StartAtKey(p) != "_timestamp"
  {
    StartAtKeyIsMetaKey(p);
  }

  /** Without `_timestamp` the record comes back unchanged. */
  lemma MetaFieldsWithoutTimestamp(record: Record)
    requires "_timestamp" !in record
    ensures WithMetaFields(record) == Some(record)
  {
  }

  /**
   * With a date-time `_timestamp`, exactly the five meta keys are added, each
   * holding its period's start of the timestamp; every other key, the
   * timestamp among them, keeps its value.
   */
  lemma MetaFieldsAdded(record: Record)
    requires "_timestamp" in record && record["_timestamp"].Timestamp?
    ensures WithMetaFields(record).Some?
    ensures var r := WithMetaFields(record).value;
      var t := record["_timestamp"].at;
      && r.Keys == record.Keys + MetaKeys
      && (forall p :: StartAtKey(p) in r && r[StartAtKey(p)] == Timestamp(Start(p, t)))
      && (forall k :: k in record && k !in MetaKeys ==> r[k] == record[k])
      && r["_timestamp"] == record["_timestamp"]
  {
    var t := record["_timestamp"].at;
    AllPeriodsStamped(record, StartStamp(t));
    TimestampNotMetaKey();
  }

  /** Adding the meta fields a second time changes nothing. */
  lemma MetaFieldsIdempotent(record: Record)
    requires WithMetaFields(record).Some?
    ensures WithMetaFields(WithMetaFields(record).value) == WithMetaFields(record)
  {
    if "_timestamp" in record {
      var r := WithMetaFields(record).value;
      MetaFieldsAdded(record);
      MetaFieldsAdded(r);
      var r2 := WithMetaFields(r).value;
      forall k | k in r2
        ensures r2[k] == r[k]
      {
        if k in MetaKeys {
          MetaKeysAreStartKeys();
          var p :| p in Periods && StartAtKey(p) == k;
        }
      }
      assert r2 == r;
    }
  }
}
