/**
 * Result post-processing: removing the bucket-start fields that
 * `add_meta_fields` puts on stored records before results are returned.
 */
module Results {
  import opened Records
  import opened TimeUtils
  import opened Data

  /** `is_period_start`: the field starts with `_` and ends with `_start_at`. */
  predicate IsPeriodStart(field: string) {
    && |field| >= 1 && field[..1] == "_"
    && |field| >= 9 && field[|field| - 9..] == "_start_at"
  }

  /** `strip_internal_fields`: every field but the bucket starts, with its value. */
  function StripInternalFields(result: Record): (r: Record)
    ensures forall k :: k in r <==> k in result && !IsPeriodStart(k)
    ensures forall k :: k in r ==> r[k] == result[k]
  {
    map k | k in result && !IsPeriodStart(k) :: result[k]
  }

  /** `_start_at` itself is stripped; neighbouring names are kept. */
  lemma IsPeriodStartExamples()
    ensures IsPeriodStart("_start_at")
    ensures !IsPeriodStart("_end_at")
    ensures !IsPeriodStart("_count")
    ensures !IsPeriodStart("_timestamp")
    ensures !IsPeriodStart("x_start_at")
  {
    assert |"_end_at"| < 9 && |"_count"| < 9;
    assert "_timestamp"[1..] != "_start_at" by { assert "_timestamp"[1] != "_start_at"[0]; }
    assert "x_start_at"[..1] != "_" by { assert "x_start_at"[0] != '_'; }
  }

  /** Every key `add_meta_fields` adds is stripped. */
  lemma StartAtKeyIsPeriodStart(p: Period)
    ensures IsPeriodStart(StartAtKey(p))
  {
    StartAtKeyShape(p);
  }

  /** Stripping twice is stripping once. */
  lemma StripIdempotent(result: Record)
    ensures StripInternalFields(StripInternalFields(result)) == StripInternalFields(result)
  {
    var once := StripInternalFields(result);
    assert StripInternalFields(once).Keys == once.Keys;
  }

  /**
   * Stripping the meta fields off an enriched record gives the record back,
   * when none of its own fields looks like a bucket start.
   */
  lemma StripUndoesMetaFields(record: Record)
    requires forall k :: k in record ==> !IsPeriodStart(k)
    requires WithMetaFields(record).Some?
    ensures StripInternalFields(WithMetaFields(record).value) == record
  {
    if "_timestamp" in record {
      StripUndoesStamps(record);
    } else {
      assert StripInternalFields(record).Keys == record.Keys;
    }
  }

  /** The case of a record with a date-time `_timestamp`: the five added starts are stripped again. */
  lemma StripUndoesStamps(record: Record)
    requires forall k :: k in record ==> !IsPeriodStart(k)
    requires "_timestamp" in record && record["_timestamp"].Timestamp?
    ensures StripInternalFields(WithMetaFields(record).value) == record
  {
    MetaFieldsAdded(record);
    StripUndoesAdded(record, WithMetaFields(record).value);
  }

  /** Stripping a record that adds only meta keys to `record`, and keeps its other values, gives `record`. */
  lemma StripUndoesAdded(record: Record, r: Record)
    requires forall k :: k in record ==> !IsPeriodStart(k)
    requires r.Keys == record.Keys + MetaKeys
    requires forall k :: k in record && k !in MetaKeys ==> r[k] == record[k]
    ensures StripInternalFields(r) == record
  {
    MetaKeysArePeriodStarts();
    var s := StripInternalFields(r);
    forall k | k in s
      ensures k in record && s[k] == record[k]
    {
      assert k !in MetaKeys;
    }
    assert s.Keys == record.Keys;
  }

  /** Every meta key is stripped. */
  lemma MetaKeysArePeriodStarts()
    ensures forall k :: k in MetaKeys ==> IsPeriodStart(k)
  {
    forall k | k in MetaKeys
      ensures IsPeriodStart(k)
    {
      MetaKeysAreStartKeys();
      var p :| p in Periods && StartAtKey(p) == k;
      StartAtKeyIsPeriodStart(p);
    }
  }
}
