/**
 * Query arguments: the structural rules a request's multi-valued arguments
 * must satisfy, their parsing into a query, and the check of a query against
 * a dataset's schema.
 *
 * Regular expressions in the schemas are matched the way Python's `re.search`
 * matches them: `^` anchors at the start and `$` matches at the end of the
 * string or just before a final newline; `.` never matches a newline.
 */
module Queries {
  import opened Wrappers

  /**
   * A request's arguments: every name maps to the non-empty list of values
   * given for it (`getlist`); `get` returns the first of them.
   */
  type Args = m: map<string, seq<string>> | forall k :: k in m ==> m[k] != [] witness map[]

  /** The argument names the query schemas know about. */
  const Recognised: set<string> :=
    {"start_at", "end_at", "filter_by", "period", "group_by", "sort_by", "limit", "collect"}

  const PeriodNames: set<string> := {"hour", "day", "week", "month", "quarter"}
  const Directions: set<string> := {"ascending", "descending"}
  const Functions: set<string> := {"sum", "count", "set", "mean"}

  // ---------------------------------------------------------------------------
  // Character classes and the `$` rule.

  /** `[a-z0-9_]` */
  predicate IsFieldChar(c: char) {
    ('a' <= c <= 'z') || ('0' <= c <= '9') || c == '_'
  }

  /** The whole string is `[a-z0-9_]+`. */
  predicate IsToken(s: string) {
    |s| > 0 && forall i :: 0 <= i < |s| ==> IsFieldChar(s[i])
  }

  /** The whole string is `[0-9]+`. */
  predicate IsDigits(s: string) {
    |s| > 0 && forall i :: 0 <= i < |s| ==> '0' <= s[i] <= '9'
  }

  /** What a pattern ending in `$` has to match: the string less one final newline. */
  function Chomp(s: string): (r: string)
    ensures r == s || r + "\n" == s
    ensures '\n' !in s ==> r == s
  {
    if |s| > 0 && s[|s| - 1] == '\n' then s[..|s| - 1] else s
  }

  // ---------------------------------------------------------------------------
  // `str.split(":", 1)`.

  /** The position of the first `:` in `s`, or `|s|` when there is none. */
  function FirstColon(s: string): (i: nat)
    ensures i <= |s|
    ensures i < |s| ==> s[i] == ':'
    ensures forall j :: 0 <= j < i ==> s[j] != ':'
  {
    if s == [] || s[0] == ':' then 0 else 1 + FirstColon(s[1..])
  }

  /**
   * Splitting on the first `:`; nothing when there is no `:`, where unpacking
   * the result into two names raises in the source.
   */
  function SplitFirst(s: string): (r: Option<(string, string)>)
    ensures r.None? <==> ':' !in s
    ensures r.Some? ==> ':' !in r.value.0 && r.value.0 + ":" + r.value.1 == s
  {
    var i := FirstColon(s);
    if i == |s| then None
    else
      assert s == s[..i] + [s[i]] + s[i + 1..];
      Some((s[..i], s[i + 1..]))
  }

  /** Only the first `:` splits: the value part may itself hold `:`. */
  lemma SplitFirstOfJoin(f: string, v: string)
    requires ':' !in f
    ensures SplitFirst(f + ":" + v) == Some((f, v))
  {
    var s := f + ":" + v;
    assert s[|f|] == ':';
    assert forall j :: 0 <= j < |f| ==> s[j] == f[j];
    assert FirstColon(s) == |f|;
    assert s[..|f|] == f;
    assert s[|f| + 1..] == v;
  }

  /** Text added after a string with a `:` lands in the value part. */
  lemma SplitFirstExtend(s: string, t: string)
    requires ':' in s
    ensures SplitFirst(s + t) == Some((SplitFirst(s).value.0, SplitFirst(s).value.1 + t))
  {
    var i := FirstColon(s);
    var st := s + t;
    assert forall j :: 0 <= j <= i ==> st[j] == s[j];
    assert FirstColon(st) == i;
    assert st[..i] == s[..i];
    assert st[i + 1..] == s[i + 1..] + t;
  }

  // ---------------------------------------------------------------------------
  // `int()` on a string, as used by `args.get("limit", type=int)`.

  predicate IsSpace(c: char) {
    c == ' ' || c == '\t' || c == '\n' || c == '\r' || c == '\U{000B}' || c == '\U{000C}'
  }

  /** `s` less its leading white space. */
  function TrimLeft(s: string): string {
    if s != [] && IsSpace(s[0]) then TrimLeft(s[1..]) else s
  }

  /** `s` less its trailing white space. */
  function TrimRight(s: string): string {
    if s != [] && IsSpace(s[|s| - 1]) then TrimRight(s[..|s| - 1]) else s
  }

  /** The value of a string of decimal digits. */
  function DigitsValue(s: string): (n: nat)
    requires forall i :: 0 <= i < |s| ==> '0' <= s[i] <= '9'
  {
    if s == [] then 0
    else DigitsValue(s[..|s| - 1]) * 10 + (s[|s| - 1] - '0') as int
  }

  /**
   * `int(s)`: surrounding white space, an optional sign (white space may
   * follow it) and at least one decimal digit; anything else is a
   * `ValueError`, which `get` turns into nothing.
   */
  function ParseInt(s: string): Option<int> {
    var t := TrimRight(TrimLeft(s));
    if t != [] && (t[0] == '+' || t[0] == '-') then
      var u := TrimLeft(t[1..]);
      if IsDigits(u) then
        var n: int := DigitsValue(u);
        Some(if t[0] == '-' then -n else n)
      else None
    else if IsDigits(t) then Some(DigitsValue(t))
    else None
  }

  predicate AllSpace(w: string) {
    forall i :: 0 <= i < |w| ==> IsSpace(w[i])
  }

  /** White space before a string that does not start with white space is trimmed off. */
  lemma {:induction false} TrimLeftSpaces(w: string, s: string)
    requires AllSpace(w)
    requires s == [] || !IsSpace(s[0])
    ensures TrimLeft(w + s) == s
    decreases |w|
  {
    if w == [] {
      assert w + s == s;
    } else {
      assert (w + s)[1..] == w[1..] + s;
      TrimLeftSpaces(w[1..], s);
    }
  }

  /** White space after a string that does not end in white space is trimmed off. */
  lemma {:induction false} TrimRightSpaces(s: string, w: string)
    requires AllSpace(w)
    requires s == [] || !IsSpace(s[|s| - 1])
    ensures TrimRight(s + w) == s
    decreases |w|
  {
    if w == [] {
      assert s + w == s;
    } else {
      var v := w[..|w| - 1];
      assert (s + w)[..|s + w| - 1] == s + v;
      TrimRightSpaces(s, v);
    }
  }

  /** Any white space around the digits, a final newline among it, is ignored. */
  lemma ParseIntSpaces(before: string, d: string, after: string)
    requires AllSpace(before) && IsDigits(d) && AllSpace(after)
    ensures ParseInt(before + d + after) == Some(DigitsValue(d))
  {
    assert before + d + after == before + (d + after);
    TrimLeftSpaces(before, d + after);
    TrimRightSpaces(d, after);
  }

  /** A sign, then any white space, then digits: the value with that sign. */
  lemma ParseIntSignThenSpace(sign: char, w: string, d: string)
    requires sign == '+' || sign == '-'
    requires AllSpace(w) && IsDigits(d)
    ensures ParseInt([sign] + w + d) == Some(if sign == '-' then -(DigitsValue(d) as int) else DigitsValue(d))
  {
    var s := [sign] + w + d;
    assert s == [sign] + (w + d);
    assert s[|s| - 1] == d[|d| - 1];
    Untrimmed(s);
    assert s[1..] == w + d;
    TrimLeftSpaces(w, d);
  }

  /** A leading minus negates the digits that follow it. */
  lemma ParseIntNegative(d: string)
    requires IsDigits(d)
    ensures ParseInt("-" + d) == Some(-(DigitsValue(d) as int))
  {
    ParseIntSignThenSpace('-', "", d);
    assert ['-'] + "" + d == "-" + d;
  }

  /** White space alone, or a bare sign with any white space around it, is refused. */
  lemma ParseIntRefuses(v: string, sign: char, w: string)
    requires AllSpace(v) && AllSpace(w)
    requires sign == '+' || sign == '-'
    ensures ParseInt(v) == None
    ensures ParseInt(v + [sign] + w) == None
  {
    TrimLeftSpaces(v, []);
    assert v + [] == v;
    assert v + [sign] + w == v + ([sign] + w);
    TrimLeftSpaces(v, [sign] + w);
    TrimRightSpaces([sign], w);
    assert [sign][1..] == [];
  }

  /** White space between two runs of digits is refused. */
  lemma ParseIntInnerSpace(a: string, c: char, b: string)
    requires IsDigits(a) && IsSpace(c) && IsDigits(b)
    ensures ParseInt(a + [c] + b) == None
  {
    var s := a + [c] + b;
    assert s[|a|] == c;
    assert s == a + ([c] + b);
    assert s[|s| - 1] == b[|b| - 1];
    UntrimmedRefused(s, |a|);
  }

  /** A string that starts with a digit, does not end in white space and holds a non-digit is refused. */
  lemma UntrimmedRefused(s: string, i: nat)
    requires 0 < i < |s|
    requires '0' <= s[0] <= '9' && !IsSpace(s[|s| - 1])
    requires !('0' <= s[i] <= '9')
    ensures ParseInt(s) == None
  {
    Untrimmed(s);
  }

  /** A string with no white space at either end is its own trim. */
  lemma Untrimmed(s: string)
    requires s != [] && !IsSpace(s[0]) && !IsSpace(s[|s| - 1])
    ensures TrimRight(TrimLeft(s)) == s
  {
    TrimLeftSpaces([], s);
    assert [] + s == s;
    TrimRightSpaces(s, []);
    assert s + [] == s;
  }

  /** Digits followed by anything but a digit or white space are refused. */
  lemma ParseIntTrailingJunk(a: string, c: char)
    requires IsDigits(a) && !IsSpace(c) && !('0' <= c <= '9')
    ensures ParseInt(a + [c]) == None
  {
    var s := a + [c];
    assert s[|a|] == c;
    UntrimmedRefused(s, |a|);
  }

  // ---------------------------------------------------------------------------
  // `query_schema2`: the structural rules on the argument lists.

  /** What each item of an argument list must match. */
  datatype ItemRule =
    | AnyString                  // "type": "string" (the date-time format is not checked)
    | OneOf(names: set<string>)  // "enum"
    | Field                      // ^[a-z0-9_]+$
    | Digits                     // ^[0-9]+$
    | FilterItem                 // ^[a-z0-9_]+:.*$
    | Pair(allowed: set<string>) // ^[a-z0-9_]+:(a|b|...)$

  predicate Satisfies(rule: ItemRule, s: string) {
    match rule
    case AnyString => true
    case OneOf(names) => s in names
    case Field => IsToken(Chomp(s))
    case Digits => IsDigits(Chomp(s))
    case FilterItem =>
      var fv := SplitFirst(Chomp(s));
      fv.Some? && IsToken(fv.value.0) && '\n' !in fv.value.1
    case Pair(allowed) =>
      var fv := SplitFirst(Chomp(s));
      fv.Some? && IsToken(fv.value.0) && fv.value.1 in allowed
  }

  function RuleFor(key: string): ItemRule {
    if key == "filter_by" then FilterItem
    else if key == "period" then OneOf(PeriodNames)
    else if key == "group_by" then Field
    else if key == "sort_by" then Pair(Directions)
    else if key == "limit" then Digits
    else if key == "collect" then Pair(Functions)
    else AnyString
  }

  /** The arguments with `"maxItems": 1`. */
  predicate SingleValued(key: string) {
    key in {"start_at", "end_at", "period", "group_by", "sort_by", "limit"}
  }

  /** The arguments with `"uniqueItems": true`. */
  predicate UniqueItems(key: string) {
    key == "filter_by" || key == "collect"
  }

  predicate Distinct(items: seq<string>) {
    forall i, j :: 0 <= i < j < |items| ==> items[i] != items[j]
  }

  predicate ListConforms(key: string, items: seq<string>) {
    && (SingleValued(key) ==> |items| <= 1)
    && (UniqueItems(key) ==> Distinct(items))
    && forall i :: 0 <= i < |items| ==> Satisfies(RuleFor(key), items[i])
  }

  /**
   * `validate_query_args`: the argument lists, as a dictionary, satisfy
   * `query_schema2`; no argument outside the eight it names is allowed.
   */
  predicate ArgsConform(args: Args) {
    && args.Keys <= Recognised
    && forall k :: k in args ==> ListConforms(k, args[k])
  }

  /** Each of the rejections the structural schema makes. */
  lemma StructuralRejections(args: Args)
    ensures (exists k :: k in args && k !in Recognised) ==> !ArgsConform(args)
    ensures forall k :: k in args && SingleValued(k) && |args[k]| > 1 ==> !ArgsConform(args)
    ensures "period" in args && args["period"][0] !in PeriodNames ==> !ArgsConform(args)
    ensures "group_by" in args && !IsToken(Chomp(args["group_by"][0])) ==> !ArgsConform(args)
    ensures "limit" in args && !IsDigits(Chomp(args["limit"][0])) ==> !ArgsConform(args)
    ensures ("sort_by" in args && SplitFirst(Chomp(args["sort_by"][0])).Some?
             && SplitFirst(Chomp(args["sort_by"][0])).value.1 !in Directions) ==> !ArgsConform(args)
    ensures forall i :: ("collect" in args && 0 <= i < |args["collect"]|
                         && SplitFirst(Chomp(args["collect"][i])).Some?
                         && SplitFirst(Chomp(args["collect"][i])).value.1 !in Functions) ==> !ArgsConform(args)
    ensures forall k, i, j :: (k in args && UniqueItems(k) && 0 <= i < j < |args[k]|
                               && args[k][i] == args[k][j]) ==> !ArgsConform(args)
  {
  }

  /** The start and end arguments need not be date-times to pass. */
  lemma DateFormatNotChecked()
    ensures ArgsConform(map["start_at" := ["yesterday"], "end_at" := ["soon"]])
  {
    var args: Args := map["start_at" := ["yesterday"], "end_at" := ["soon"]];
    assert ListConforms("start_at", args["start_at"]);
    assert ListConforms("end_at", args["end_at"]);
  }

  // ---------------------------------------------------------------------------
  // `parse_query_args`.

  datatype SortBy = SortBy(field: string, direction: string)

  /**
   * The query dictionary: one optional entry per recognised argument.  `limit`
   * holds `None` inside when the argument was given but is not an integer.
   */
  datatype Query = Query(
    startAt: Option<string>,
    endAt: Option<string>,
    filterBy: Option<map<string, string>>,
    period: Option<string>,
    groupBy: Option<string>,
    sortBy: Option<SortBy>,
    limit: Option<Option<int>>,
    collect: Option<map<string, string>>)

  /** `args.get(key)`: the first value given for `key`. */
  function Get(args: Args, key: string): (r: Option<string>)
    ensures r.Some? <==> key in args
    ensures r.Some? ==> r.value == args[key][0]
  {
    if key in args then Some(args[key][0]) else None
  }

  /**
   * The `field:value` items of `filter_by` or `collect` as a dictionary, a
   * later item for a field replacing an earlier one; nothing if an item has
   * no `:`.
   */
  function ItemsToMap(items: seq<string>): Option<map<string, string>>
    decreases |items|
  {
    if items == [] then Some(map[])
    else
      match ItemsToMap(items[..|items| - 1])
      case None => None
      case Some(m) =>
        match SplitFirst(items[|items| - 1])
        case None => None
        case Some(fv) => Some(m[fv.0 := fv.1])
  }

  /** The items make a dictionary exactly when every one of them holds a `:`. */
  lemma {:induction false} ItemsToMapDefined(items: seq<string>)
    ensures ItemsToMap(items).Some? <==> forall i :: 0 <= i < |items| ==> ':' in items[i]
    decreases |items|
  {
    if items != [] {
      var init := items[..|items| - 1];
      ItemsToMapDefined(init);
      assert forall i :: 0 <= i < |init| ==> init[i] == items[i];
    }
  }

  /** `items[i]` is the last item naming field `f`. */
  ghost predicate LastItemFor(items: seq<string>, i: int, f: string) {
    && 0 <= i < |items|
    && SplitFirst(items[i]).Some? && SplitFirst(items[i]).value.0 == f
    && forall j :: i < j < |items| ==> SplitFirst(items[j]).None? || SplitFirst(items[j]).value.0 != f
  }

  /** The dictionary has one key per field named by an item. */
  lemma {:induction false} ItemsKeys(items: seq<string>)
    requires ItemsToMap(items).Some?
    ensures forall f :: f in ItemsToMap(items).value <==>
      exists i :: 0 <= i < |items| && SplitFirst(items[i]).Some? && SplitFirst(items[i]).value.0 == f
    decreases |items|
  {
    if items != [] {
      var init := items[..|items| - 1];
      ItemsKeys(init);
      var m := ItemsToMap(items).value;
      forall f ensures f in m <==>
        exists i :: 0 <= i < |items| && SplitFirst(items[i]).Some? && SplitFirst(items[i]).value.0 == f
      {
        if f in m {
          if f == SplitFirst(items[|items| - 1]).value.0 {
          } else {
            var i :| 0 <= i < |init| && SplitFirst(init[i]).Some? && SplitFirst(init[i]).value.0 == f;
            assert items[i] == init[i];
          }
        } else {
          forall i | 0 <= i < |items| && SplitFirst(items[i]).Some?
            ensures SplitFirst(items[i]).value.0 != f
          {
            if i < |init| {
              assert items[i] == init[i];
            }
          }
        }
      }
    }
  }

  /** Under each key, the value of the last item naming that field. */
  lemma {:induction false} ItemsLastWins(items: seq<string>)
    requires ItemsToMap(items).Some?
    ensures var m := ItemsToMap(items).value;
      forall f :: f in m ==> exists i :: LastItemFor(items, i, f) && m[f] == SplitFirst(items[i]).value.1
    decreases |items|
  {
    if items != [] {
      var init := items[..|items| - 1];
      var last := items[|items| - 1];
      ItemsLastWins(init);
      var m0 := ItemsToMap(init).value;
      var fv := SplitFirst(last).value;
      var m := ItemsToMap(items).value;
      assert m == m0[fv.0 := fv.1];
      forall f | f in m
        ensures exists i :: LastItemFor(items, i, f) && m[f] == SplitFirst(items[i]).value.1
      {
        if f == fv.0 {
          assert LastItemFor(items, |items| - 1, f);
        } else {
          var i :| LastItemFor(init, i, f) && m0[f] == SplitFirst(init[i]).value.1;
          LastItemExtends(init, last, i, f);
          assert init + [last] == items;
        }
      }
    }
  }

  /** An item stays the last for its field when an item for another field follows. */
  lemma LastItemExtends(init: seq<string>, last: string, i: int, f: string)
    requires LastItemFor(init, i, f)
    requires SplitFirst(last).Some? && SplitFirst(last).value.0 != f
    ensures LastItemFor(init + [last], i, f)
    ensures (init + [last])[i] == init[i]
  {
    var items := init + [last];
    forall j | i < j < |items|
      ensures SplitFirst(items[j]).None? || SplitFirst(items[j]).value.0 != f
    {
      if j < |init| {
        assert items[j] == init[j];
      } else {
        assert items[j] == last;
      }
    }
  }

  /** Two items naming the same field: the later one's value is kept. */
  lemma RepeatedFieldOverwrites()
    ensures ItemsToMap(["a:1", "b:2", "a:3"]) == Some(map["a" := "3", "b" := "2"])
  {
    assert "a" + ":" + "1" == "a:1" && "b" + ":" + "2" == "b:2" && "a" + ":" + "3" == "a:3";
    SplitFirstOfJoin("a", "1");
    SplitFirstOfJoin("b", "2");
    SplitFirstOfJoin("a", "3");
    assert ["a:1"][..0] == [];
    assert ItemsToMap(["a:1"]) == Some(map["a" := "1"]);
    assert ["a:1", "b:2"][..1] == ["a:1"];
    assert ItemsToMap(["a:1", "b:2"]) == Some(map["a" := "1", "b" := "2"]);
    assert ["a:1", "b:2", "a:3"][..2] == ["a:1", "b:2"];
    assert map["a" := "1", "b" := "2"]["a" := "3"] == map["a" := "3", "b" := "2"];
  }

  /**
   * `parse_query_args`: nothing when an item of `filter_by` or `collect`, or
   * the `sort_by` value, has no `:` (the source raises); otherwise the query.
   */
  function ParseQuery(args: Args): Option<Query> {
    if "filter_by" in args && ItemsToMap(args["filter_by"]).None? then None
    else if "sort_by" in args && SplitFirst(args["sort_by"][0]).None? then None
    else if "collect" in args && ItemsToMap(args["collect"]).None? then None
    else
      Some(Query(
        startAt := Get(args, "start_at"),
        endAt := Get(args, "end_at"),
        filterBy := if "filter_by" in args then ItemsToMap(args["filter_by"]) else None,
        period := Get(args, "period"),
        groupBy := Get(args, "group_by"),
        sortBy :=
          if "sort_by" in args then
            var fd := SplitFirst(args["sort_by"][0]).value;
            Some(SortBy(fd.0, fd.1))
          else None,
        limit := if "limit" in args then Some(ParseInt(args["limit"][0])) else None,
        collect := if "collect" in args then ItemsToMap(args["collect"]) else None))
  }

  /** The parse fails exactly when a value that must be split has no `:`. */
  lemma ParseFailure(args: Args)
    ensures ParseQuery(args).None? <==>
      || ("filter_by" in args && exists i :: 0 <= i < |args["filter_by"]| && ':' !in args["filter_by"][i])
      || ("sort_by" in args && ':' !in args["sort_by"][0])
      || ("collect" in args && exists i :: 0 <= i < |args["collect"]| && ':' !in args["collect"][i])
  {
    if "filter_by" in args { ItemsToMapDefined(args["filter_by"]); }
    if "collect" in args { ItemsToMapDefined(args["collect"]); }
  }

  /**
   * A query entry is present exactly when its argument is; `sort_by` `"f:d"`
   * becomes field `f` and direction `d`.
   */
  lemma ParsedEntries(args: Args)
    requires ParseQuery(args).Some?
    ensures var q := ParseQuery(args).value;
      && (q.startAt.Some? <==> "start_at" in args)
      && (q.endAt.Some? <==> "end_at" in args)
      && (q.filterBy.Some? <==> "filter_by" in args)
      && (q.period.Some? <==> "period" in args)
      && (q.groupBy.Some? <==> "group_by" in args)
      && (q.sortBy.Some? <==> "sort_by" in args)
      && (q.limit.Some? <==> "limit" in args)
      && (q.collect.Some? <==> "collect" in args)
      && (q.sortBy.Some? ==> q.sortBy.value.field + ":" + q.sortBy.value.direction == args["sort_by"][0]
                              && ':' !in q.sortBy.value.field)
  {
  }

  /** Arguments the schemas do not name leave the parsed query unchanged. */
  lemma ParseIgnoresUnknown(args: Args)
    ensures var known: Args := map k | k in args && k in Recognised :: args[k];
      ParseQuery(args) == ParseQuery(known)
  {
  }

  /** The filter loop and the collect loop of `parse_query_args`. */
  method CollectItems(items: seq<string>) returns (r: Option<map<string, string>>)
    ensures r == ItemsToMap(items)
  {
    var m := map[];
    for i := 0 to |items|
      invariant ItemsToMap(items[..i]) == Some(m)
    {
      assert items[..i + 1][..i] == items[..i];
      var fv := SplitFirst(items[i]);
      if fv.None? {
        ItemsToMapDefined(items);
        return None;
      }
      m := m[fv.value.0 := fv.value.1];
    }
    assert items[..|items|] == items;
    return Some(m);
  }

  /** `parse_query_args`, filling the query entry by entry. */
  method ParseQueryArgs(args: Args) returns (r: Option<Query>)
    ensures r == ParseQuery(args)
  {
    var filterBy: Option<map<string, string>> := None;
    if "filter_by" in args {
      filterBy := CollectItems(args["filter_by"]);
      if filterBy.None? {
        return None;
      }
    }
    var sortBy: Option<SortBy> := None;
    if "sort_by" in args {
      var fd := SplitFirst(args["sort_by"][0]);
      if fd.None? {
        return None;
      }
      sortBy := Some(SortBy(fd.value.0, fd.value.1));
    }
    var limit: Option<Option<int>> := None;
    if "limit" in args {
      limit := Some(ParseInt(args["limit"][0]));
    }
    var collect: Option<map<string, string>> := None;
    if "collect" in args {
      collect := CollectItems(args["collect"]);
      if collect.None? {
        return None;
      }
    }
    r := Some(Query(Get(args, "start_at"), Get(args, "end_at"), filterBy, Get(args, "period"),
                    Get(args, "group_by"), sortBy, limit, collect));
  }

  // ---------------------------------------------------------------------------
  // `validate_query`.

  /**
   * The query satisfies `query_schema`: filter and collect keys are field
   * names, collect functions, the period and the sort direction come from
   * their lists, and a limit is a non-negative integer.
   */
  predicate WellShaped(q: Query) {
    && (q.filterBy.Some? ==> forall k :: k in q.filterBy.value ==> IsToken(Chomp(k)))
    && (q.period.Some? ==> q.period.value in PeriodNames)
    && (q.sortBy.Some? ==> q.sortBy.value.direction in Directions)
    && (q.limit.Some? ==> q.limit.value.Some? && q.limit.value.value >= 0)
    && (q.collect.Some? ==> forall k :: k in q.collect.value ==>
          IsToken(Chomp(k)) && q.collect.value[k] in Functions)
  }

  /** `field in query` for the entries the timestamp rule looks at. */
  function Has(q: Query, key: string): (b: bool)
    ensures b ==> key in {"start_at", "end_at", "period"}
  {
    if key == "start_at" then q.startAt.Some?
    else if key == "end_at" then q.endAt.Some?
    else if key == "period" then q.period.Some?
    else false
  }

  /** Time limits and periods need a dataset with `_timestamp`. */
  predicate TimestampRule(q: Query, properties: set<string>) {
    "_timestamp" in properties || (q.startAt.None? && q.endAt.None? && q.period.None?)
  }

  /** Every field a query filters, groups, sorts or collects on. */
  function ReferencedFields(q: Query): set<string> {
    (if q.filterBy.Some? then q.filterBy.value.Keys else {})
    + (if q.groupBy.Some? then {q.groupBy.value} else {})
    + (if q.sortBy.Some? then {q.sortBy.value.field} else {})
    + (if q.collect.Some? then q.collect.value.Keys else {})
  }

  /** The loops over `filter_by` and `collect` fields. */
  method AllKnown(fields: set<string>, properties: set<string>) returns (ok: bool)
    ensures ok <==> fields <= properties
  {
    var rest := fields;
    while rest != {}
      invariant rest <= fields
      invariant fields - rest <= properties
      decreases |rest|
    {
      var f :| f in rest;
      if f !in properties {
        return false;
      }
      rest := rest - {f};
    }
    return true;
  }

  /**
   * `validate_query`: the query is accepted exactly when it is well shaped,
   * keeps the timestamp rule, and every field it refers to is a property of
   * the dataset's schema.
   */
  method ValidateQuery(q: Query, properties: set<string>) returns (ok: bool)
    ensures ok <==> WellShaped(q) && TimestampRule(q, properties) && ReferencedFields(q) <= properties
  {
    if !WellShaped(q) {
      return false;
    }
    if "_timestamp" !in properties {
      var timed := ["start_at", "end_at", "period"];
      for i := 0 to |timed|
        invariant forall j :: 0 <= j < i ==> !Has(q, timed[j])
      {
        if Has(q, timed[i]) {
          return false;
        }
      }
      assert !Has(q, timed[0]) && !Has(q, timed[1]) && !Has(q, timed[2]);
    }
    if q.filterBy.Some? {
      ok := AllKnown(q.filterBy.value.Keys, properties);
      if !ok {
        return false;
      }
    }
    if q.groupBy.Some? && q.groupBy.value !in properties {
      return false;
    }
    if q.sortBy.Some? && q.sortBy.value.field !in properties {
      return false;
    }
    if q.collect.Some? {
      ok := AllKnown(q.collect.value.Keys, properties);
      if !ok {
        return false;
      }
    }
    return true;
  }

  // ---------------------------------------------------------------------------
  // From arguments to a query.

  /** A digit string, with or without a final newline, reads as its value. */
  lemma ParseDigits(s: string)
    requires IsDigits(Chomp(s))
    ensures ParseInt(s) == Some(DigitsValue(Chomp(s)))
  {
    var d := Chomp(s);
    assert TrimLeft(s) == s;
    if d != s {
      assert TrimRight(s) == TrimRight(d);
    }
    assert TrimRight(d) == d;
  }

  /** Arguments that pass the structural check always parse. */
  lemma ConformingArgsParse(args: Args)
    requires ArgsConform(args)
    ensures ParseQuery(args).Some?
  {
    ParseFailure(args);
    forall k, i | k in args && UniqueItems(k) && 0 <= i < |args[k]|
      ensures ':' in args[k][i]
    {
      assert Satisfies(RuleFor(k), args[k][i]);
      SplitFirstChomp(args[k][i]);
    }
    if "sort_by" in args {
      assert Satisfies(RuleFor("sort_by"), args["sort_by"][0]);
      SplitFirstChomp(args["sort_by"][0]);
    }
  }

  /** The first `:` of a string is the first `:` of the string less a final newline. */
  lemma SplitFirstChomp(s: string)
    requires SplitFirst(Chomp(s)).Some?
    ensures SplitFirst(s).Some?
    ensures SplitFirst(s).value.0 == SplitFirst(Chomp(s)).value.0
  {
    if Chomp(s) != s {
      SplitFirstExtend(Chomp(s), "\n");
    }
  }

  /** A field name has no newline for `$` to skip. */
  lemma TokenChomp(k: string)
    requires IsToken(k)
    ensures Chomp(k) == k
  {
    assert IsFieldChar(k[|k| - 1]);
  }

  /** The field of a structurally valid filter or collect item is a field name. */
  lemma ItemFieldIsToken(s: string, rule: ItemRule)
    requires rule.FilterItem? || rule.Pair?
    requires Satisfies(rule, s)
    ensures SplitFirst(s).Some? && IsToken(SplitFirst(s).value.0)
  {
    SplitFirstChomp(s);
  }

  /** The filter of conforming arguments names only fields. */
  lemma ConformingFilterFields(args: Args)
    requires ArgsConform(args) && "filter_by" in args
    requires ParseQuery(args).Some?
    ensures var q := ParseQuery(args).value;
      q.filterBy.Some? && forall k :: k in q.filterBy.value ==> IsToken(k)
  {
    var items := args["filter_by"];
    var q := ParseQuery(args).value;
    ItemsKeys(items);
    assert ListConforms("filter_by", items);
    forall k | k in q.filterBy.value
      ensures IsToken(k)
    {
      var i :| 0 <= i < |items| && SplitFirst(items[i]).Some? && SplitFirst(items[i]).value.0 == k;
      ItemFieldIsToken(items[i], FilterItem);
    }
  }

  /** The collect map of conforming, newline-free arguments pairs fields with functions. */
  lemma ConformingCollectPairs(args: Args)
    requires ArgsConform(args) && "collect" in args
    requires forall i :: 0 <= i < |args["collect"]| ==> '\n' !in args["collect"][i]
    requires ParseQuery(args).Some?
    ensures var q := ParseQuery(args).value;
      q.collect.Some? && forall k :: k in q.collect.value ==>
        IsToken(k) && q.collect.value[k] in Functions
  {
    var items := args["collect"];
    var q := ParseQuery(args).value;
    ItemsLastWins(items);
    assert ListConforms("collect", items);
    forall k | k in q.collect.value
      ensures IsToken(k) && q.collect.value[k] in Functions
    {
      var i :| LastItemFor(items, i, k) && q.collect.value[k] == SplitFirst(items[i]).value.1;
      ItemFieldIsToken(items[i], Pair(Functions));
    }
  }

  /**
   * Arguments that pass the structural check, and whose sort and collect
   * values do not end in a newline, parse into a query that satisfies
   * `query_schema`.
   */
  lemma ConformingArgsWellShaped(args: Args)
    requires ArgsConform(args)
    requires "sort_by" in args ==> '\n' !in args["sort_by"][0]
    requires "collect" in args ==> forall i :: 0 <= i < |args["collect"]| ==> '\n' !in args["collect"][i]
    ensures ParseQuery(args).Some? && WellShaped(ParseQuery(args).value)
  {
    ConformingArgsParse(args);
    var q := ParseQuery(args).value;
    if "filter_by" in args {
      ConformingFilterFields(args);
      forall k | k in q.filterBy.value
        ensures IsToken(Chomp(k))
      {
        TokenChomp(k);
      }
    }
    if "sort_by" in args {
      assert Satisfies(RuleFor("sort_by"), args["sort_by"][0]);
    }
    if "limit" in args {
      assert Satisfies(RuleFor("limit"), args["limit"][0]);
      ParseDigits(args["limit"][0]);
    }
    if "period" in args {
      assert Satisfies(RuleFor("period"), args["period"][0]);
    }
    if "collect" in args {
      ConformingCollectPairs(args);
      forall k | k in q.collect.value
        ensures IsToken(Chomp(k))
      {
        TokenChomp(k);
      }
    }
  }

  /** `f:ascending` followed by a newline matches the sort pattern. */
  lemma NewlineSortItemMatches()
    ensures Satisfies(Pair(Directions), "f:ascending\n")
  {
    assert "f" + ":" + "ascending" == "f:ascending";
    assert Chomp("f:ascending\n") == "f:ascending";
    SplitFirstOfJoin("f", "ascending");
  }

  /** The newline stays in the direction that `parse_query_args` splits off. */
  lemma NewlineSortItemSplits()
    ensures SplitFirst("f:ascending\n") == Some(("f", "ascending\n"))
    ensures "ascending\n" !in Directions
  {
    assert "f" + ":" + "ascending\n" == "f:ascending\n";
    SplitFirstOfJoin("f", "ascending\n");
    assert |"ascending\n"| != |"ascending"| && "ascending\n"[0] != "descending"[0];
  }

  /** The arguments with only `sort_by` `f:ascending` and a newline conform. */
  lemma NewlineSortConforms()
    ensures ArgsConform(map["sort_by" := ["f:ascending\n"]])
  {
    var args: Args := map["sort_by" := ["f:ascending\n"]];
    NewlineSortItemMatches();
    assert ListConforms("sort_by", args["sort_by"]);
  }

  /** ... and parse into a sort whose direction keeps the newline. */
  lemma NewlineSortParses()
    ensures var args: Args := map["sort_by" := ["f:ascending\n"]];
      ParseQuery(args).Some? && ParseQuery(args).value.sortBy == Some(SortBy("f", "ascending\n"))
  {
    var args: Args := map["sort_by" := ["f:ascending\n"]];
    assert "filter_by" !in args && "collect" !in args;
    assert args["sort_by"][0] == "f:ascending\n";
    NewlineSortItemSplits();
  }

  /**
   * A sort value with a final newline passes the structural check, since `$`
   * matches before it, but its direction then fails `query_schema`.
   */
  lemma TrailingNewlineSlipsThrough()
    ensures var args: Args := map["sort_by" := ["f:ascending\n"]];
      && ArgsConform(args)
      && ParseQuery(args).Some?
      && !WellShaped(ParseQuery(args).value)
  {
    NewlineSortConforms();
    NewlineSortParses();
    NewlineSortItemSplits();
  }
}
