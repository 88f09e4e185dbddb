/**
 * Records as the core handles them: a dictionary from field name to value.
 * Only timestamps are interpreted; every other value is carried verbatim.
 */
module Records {
  import opened Calendar

  datatype Value =
    | Timestamp(at: DateTime)
    | Text(text: string)
    | Number(number: int)
    | Flag(flag: bool)
    | Null

  type Record = map<string, Value>

  /**
   * `_merge`: every key of either record, the second record's value winning
   * where both have the key.
   */
  function Merge(first: Record, second: Record): (r: Record)
    ensures r.Keys == first.Keys + second.Keys
    ensures forall k :: k in second ==> r[k] == second[k]
    ensures forall k :: k in first && k !in second ==> r[k] == first[k]
  {
    first + second
  }
}
