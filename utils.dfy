/** The selection and formatting helpers of the bot module (utils.py): byte-size
    conversion, keyword search over the node list, and the text of each view. */
module Utils {
  import opened Wrappers
  import opened I18n
  import opened Records

  // ---------------------------------------------------------------------------
  // size_convert

  const UNITS: seq<string> := ["B", "KB", "MB", "GB", "TB", "PB"]
  const STEP: real := 1024.0

  /** 1024 to the power `i`. */
  function Pow(i: nat): (p: real)
    ensures p >= 1.0
  {
    if i == 0 then 1.0 else STEP * Pow(i - 1)
  }

  /** The first byte count too large for unit `i`: 1024^(i+1). */
  function Limit(i: nat): real {
    Pow(i + 1)
  }

  lemma {:induction false} PowMonotone(i: nat, j: nat)
    requires i <= j
    ensures Pow(i) <= Pow(j)
  {
    if i < j {
      PowMonotone(i, j - 1);
    }
  }

  /** A byte count scaled to a unit: `amount` in `UNITS[unit]`. */
  datatype Scaled = Scaled(amount: real, unit: nat)

  /** The first unit index at or after `from` whose next power of 1024 exceeds
      `value`; `None` when every unit up to PB is too small. */
  function UnitFrom(value: real, from: nat): Option<nat>
    requires from <= |UNITS|
    decreases |UNITS| - from
  {
    if from == |UNITS| then None
    else if value < Limit(from) then Some(from)
    else UnitFrom(value, from + 1)
  }

  /** The unit UnitFrom picks is the first one at or after `from` that fits. */
  lemma {:induction false} UnitFromSpec(value: real, from: nat)
    requires from <= |UNITS|
    ensures var r := UnitFrom(value, from);
      r.Some? ==> from <= r.value < |UNITS| && value < Limit(r.value)
    ensures var r := UnitFrom(value, from);
      r.Some? ==> forall j :: from <= j < r.value ==> Limit(j) <= value
    ensures UnitFrom(value, from).None? ==> forall j :: from <= j < |UNITS| ==> Limit(j) <= value
    decreases |UNITS| - from
  {
    if from < |UNITS| && !(value < Limit(from)) {
      UnitFromSpec(value, from + 1);
    }
  }

  /** What `size_convert(value)` returns: the unit UnitFrom picks from B on and
      the value scaled to it, or `None` (Python's `None`) past PB. */
  function HumanSize(value: real): Option<Scaled> {
    match UnitFrom(value, 0)
    case None => None
    case Some(i) => Some(Scaled(value / Pow(i), i))
  }

  /** size_convert picks the least unit index `i` with `value < 1024^(i+1)` and
      shows `value / 1024^i` in it; it gives `None` exactly when
      `value >= 1024^6`: there is no saturation at PB. */
  lemma HumanSizeSpec(value: real)
    ensures HumanSize(value).Some? <==> value < Pow(|UNITS|)
    ensures var r := HumanSize(value);
      r.Some? ==> r.value.unit < |UNITS| && value < Limit(r.value.unit)
    ensures var r := HumanSize(value);
      r.Some? ==> r.value.unit == 0 || Limit(r.value.unit - 1) <= value
    ensures var r := HumanSize(value);
      r.Some? ==> InUnit(r.value.amount, r.value.unit, value)
  {
    UnitFromSpec(value, 0);
    match UnitFrom(value, 0)
    case None =>
      assert Limit(|UNITS| - 1) <= value;
    case Some(i) =>
      PowMonotone(i + 1, |UNITS|);
      DivCancel(value, Pow(i));
  }

  lemma DivCancel(v: real, p: real)
    requires p > 0.0
    ensures (v / p) * p == v
  {
  }

  lemma MulMonotone(a: real, b: real, p: real)
    requires p > 0.0 && a <= b
    ensures a * p <= b * p
  {
  }

  lemma MulStrict(a: real, b: real, p: real)
    requires p > 0.0 && a < b
    ensures a * p < b * p
  {
  }

  lemma MulCancel(a: real, b: real, p: real)
    requires p > 0.0 && a * p == b * p
    ensures a == b
  {
  }

  /** The catalog argument a size becomes: `'<amount> <unit>'`, or `None`. */
  function SizeVal(s: Option<Scaled>): Val {
    if s.Some? && s.value.unit < |UNITS| then Measure(s.value.amount, UNITS[s.value.unit]) else Nil
  }

  /** `v` is `value` expressed in unit `i`. */
  predicate InUnit(v: real, i: nat, value: real) {
    v * Pow(i) == value
  }

  /** One pass of size_convert's loop that does not return: the unit index
      moves on and the scaled value stays consistent. */
  lemma ScaleOn(v: real, value: real, i: nat)
    requires i < |UNITS| && InUnit(v, i, value) && v / STEP >= 1.0
    ensures InUnit(v / STEP, i + 1, value)
    ensures UnitFrom(value, i) == UnitFrom(value, i + 1)
  {
    var p := Pow(i);
    assert Limit(i) == STEP * p;
    assert v >= STEP;
    MulMonotone(STEP, v, p);
    assert !(value < Limit(i));
  }

  /** The pass of size_convert's loop that returns. */
  lemma ScaleStop(v: real, value: real, i: nat)
    requires i < |UNITS| && InUnit(v, i, value) && v / STEP < 1.0
    ensures UnitFrom(value, i) == Some(i)
    ensures v == value / Pow(i)
  {
    var p := Pow(i);
    assert Limit(i) == STEP * p;
    assert v < STEP;
    MulStrict(v, STEP, p);
    assert value < Limit(i);
    DivCancel(value, p);
    MulCancel(v, value / p, p);
  }

  /** What HumanSize returns once the unit is known. */
  lemma HumanSizeAt(value: real, i: nat)
    requires UnitFrom(value, 0) == Some(i)
    ensures HumanSize(value) == Some(Scaled(value / Pow(i), i))
  {
  }

  /** What HumanSize returns past PB. */
  lemma HumanSizePast(value: real)
    requires UnitFrom(value, 0) == UnitFrom(value, |UNITS|)
    ensures HumanSize(value) == None
  {
  }

  /** size_convert: divide by 1024 until the value drops below 1024, returning
      early with the unit reached; falls out of the loop after PB. */
  method SizeConvert(value: real) returns (r: Option<Scaled>)
    ensures r == HumanSize(value)
  {
    var v := value;
    var i := 0;
    while i < |UNITS|
      invariant 0 <= i <= |UNITS|
      invariant InUnit(v, i, value)
      invariant UnitFrom(value, 0) == UnitFrom(value, i)
    {
      if v / STEP < 1.0 {
        ScaleStop(v, value, i);
        HumanSizeAt(value, i);
        return Some(Scaled(v, i));
      }
      ScaleOn(v, value, i);
      v := v / STEP;
      i := i + 1;
    }
    HumanSizePast(value);
    return None;
  }

  /** The unit never goes down as the byte count grows, and once a count is past
      PB every larger one is too. */
  lemma UnitMonotone(a: real, b: real)
    requires a <= b
    ensures HumanSize(b).Some? ==> HumanSize(a).Some? && HumanSize(a).value.unit <= HumanSize(b).value.unit
  {
    HumanSizeSpec(a);
    HumanSizeSpec(b);
    if HumanSize(b).Some? {
      var ua, ub := HumanSize(a).value.unit, HumanSize(b).value.unit;
      if ua > ub {
        PowMonotone(ub + 1, ua);
      }
    }
  }

  /** Anything below 1024 stays in bytes, unscaled. */
  lemma BelowKilobyte(v: real)
    requires v < STEP
    ensures HumanSize(v) == Some(Scaled(v, 0))
  {
  }

  lemma SizeExamples()
    ensures HumanSize(0.0) == Some(Scaled(0.0, 0))        // "0.00 B"
    ensures HumanSize(1536.0) == Some(Scaled(1.5, 1))     // "1.50 KB"
    ensures HumanSize(Pow(5)) == Some(Scaled(1.0, 5))     // "1.00 PB"
    ensures HumanSize(Pow(6)) == None                     // None, not "1024.00 PB"
  {
    PowMonotone(5, 6);
    UnitMonotone(Pow(5), Pow(5));
  }

  // ---------------------------------------------------------------------------
  // search

  /** A compiled case-insensitive regular expression, as a predicate over the
      strings it finds a match in; `Invalid` is a pattern `re.compile` rejects. */
  datatype Pattern = Invalid | Compiled(matches: string -> bool)

  /** One node against the keys, tried in priority order: `Some(true)` at the first
      key that matches, `Some(false)` when none does, `None` when a key reached
      before any match has no string value (the engine raises TypeError). */
  function KeyScan(n: Node, keys: seq<string>, matches: string -> bool): (r: Option<bool>)
    ensures r == Some(true) ==> exists j :: 0 <= j < |keys| && Field(n, keys[j]).Some? && matches(Field(n, keys[j]).value)
    ensures r.None? ==> exists j :: 0 <= j < |keys| && Field(n, keys[j]).None?
    ensures (forall j :: 0 <= j < |keys| ==> Field(n, keys[j]).Some?) ==>
              r == Some(exists j :: 0 <= j < |keys| && matches(Field(n, keys[j]).value))
  {
    if keys == [] then Some(false)
    else
      var field := Field(n, keys[0]);
      if field.None? then None
      else if matches(field.value) then Some(true)
      else
        var rest := KeyScan(n, keys[1..], matches);
        assert forall j :: 1 <= j < |keys| ==> keys[j] == keys[1..][j - 1];
        rest
  }

  /** Every key before index `j` has a string field that does not match. */
  predicate PassedBefore(n: Node, keys: seq<string>, matches: string -> bool, j: int)
    requires j <= |keys|
  {
    forall i :: 0 <= i < j ==> Field(n, keys[i]).Some? && !matches(Field(n, keys[i]).value)
  }

  /** `keys[j]` is the first key tried that matches. */
  predicate MatchesFirstAt(n: Node, keys: seq<string>, matches: string -> bool, j: int) {
    && 0 <= j < |keys| && PassedBefore(n, keys, matches, j)
    && Field(n, keys[j]).Some? && matches(Field(n, keys[j]).value)
  }

  /** `keys[j]` is the first key tried that has no string field, so the engine
      raises there. */
  predicate MissingFirstAt(n: Node, keys: seq<string>, matches: string -> bool, j: int) {
    0 <= j < |keys| && PassedBefore(n, keys, matches, j) && Field(n, keys[j]).None?
  }

  /** Past a first key that is present and does not match, the keys are tried
      as if the list started one later. */
  lemma PassedShift(n: Node, keys: seq<string>, matches: string -> bool, j: int)
    requires 1 <= j <= |keys|
    requires Field(n, keys[0]).Some? && !matches(Field(n, keys[0]).value)
    ensures PassedBefore(n, keys, matches, j) <==> PassedBefore(n, keys[1..], matches, j - 1)
  {
    assert forall i :: 1 <= i < |keys| ==> keys[i] == keys[1..][i - 1];
  }

  /** The scan keeps the source's key order: it reports a match exactly when the
      first key that decides the node matches, and it raises exactly when that
      key's field is missing; a match on an earlier key shields the node from
      missing fields later in the list. */
  lemma {:induction false} KeyScanOrder(n: Node, keys: seq<string>, matches: string -> bool)
    ensures KeyScan(n, keys, matches) == Some(true) <==> exists j :: MatchesFirstAt(n, keys, matches, j)
    ensures KeyScan(n, keys, matches).None? <==> exists j :: MissingFirstAt(n, keys, matches, j)
  {
    if keys == [] {
    } else {
      var field := Field(n, keys[0]);
      assert PassedBefore(n, keys, matches, 0);
      if field.None? {
        assert MissingFirstAt(n, keys, matches, 0);
        forall j ensures !MatchesFirstAt(n, keys, matches, j) {
          if 0 < j < |keys| {
            assert !PassedBefore(n, keys, matches, j) by {
              assert Field(n, keys[0]).None?;
            }
          }
        }
      } else if matches(field.value) {
        assert MatchesFirstAt(n, keys, matches, 0);
        forall j ensures !MissingFirstAt(n, keys, matches, j) {
          if 0 < j < |keys| {
            assert !PassedBefore(n, keys, matches, j) by {
              assert matches(Field(n, keys[0]).value);
            }
          }
        }
      } else {
        var rest := keys[1..];
        KeyScanOrder(n, rest, matches);
        assert KeyScan(n, keys, matches) == KeyScan(n, rest, matches);
        forall j | 1 <= j <= |keys| {
          PassedShift(n, keys, matches, j);
        }
        assert !MatchesFirstAt(n, keys, matches, 0) && !MissingFirstAt(n, keys, matches, 0);
        forall j ensures MatchesFirstAt(n, keys, matches, j) <==> MatchesFirstAt(n, rest, matches, j - 1) {
          if 1 <= j <= |keys| {
            assert j < |keys| ==> keys[j] == rest[j - 1];
          }
        }
        forall j ensures MissingFirstAt(n, keys, matches, j) <==> MissingFirstAt(n, rest, matches, j - 1) {
          if 1 <= j <= |keys| {
            assert j < |keys| ==> keys[j] == rest[j - 1];
          }
        }
        if exists j :: MatchesFirstAt(n, rest, matches, j) {
          var j :| MatchesFirstAt(n, rest, matches, j);
          assert MatchesFirstAt(n, keys, matches, j + 1);
        }
        if exists j :: MissingFirstAt(n, rest, matches, j) {
          var j :| MissingFirstAt(n, rest, matches, j);
          assert MissingFirstAt(n, keys, matches, j + 1);
        }
      }
    }
  }

  /** The case the key order decides: a node whose earlier key matches is listed
      even though a later key's field is missing, while the same node with the
      keys tried the other way round makes the scan raise. */
  lemma MatchShieldsMissing(n: Node, matches: string -> bool)
    requires n.clusterName.Some? && matches(n.clusterName.value) && n.sponsor.None?
    ensures KeyScan(n, ["clusterName", "sponsor"], matches) == Some(true)
    ensures KeyScan(n, ["sponsor", "clusterName"], matches).None?
  {
    assert ["clusterName", "sponsor"][1..] == ["sponsor"];
  }

  /** The (rank, node) pairs `search` has collected after the first `count` nodes,
      or the exception it has raised by then. */
  function SearchUpTo(nodes: seq<Node>, keys: seq<string>, matches: string -> bool, count: nat): Result<seq<(int, Node)>, Exc>
    requires count <= |nodes|
  {
    if count == 0 then Ok([])
    else
      match SearchUpTo(nodes, keys, matches, count - 1)
      case Err(e) => Err(e)
      case Ok(hits) =>
        match KeyScan(nodes[count - 1], keys, matches)
        case None => Err(TypeError)
        case Some(found) => Ok(if found then hits + [(count, nodes[count - 1])] else hits)
  }

  /** What `search(cluster_list, key_list, value)` returns or raises. */
  function SearchResult(nodes: seq<Node>, keys: seq<string>, pattern: Pattern): Result<seq<(int, Node)>, Exc> {
    match pattern
    case Invalid => Err(PatternError)
    case Compiled(matches) => SearchUpTo(nodes, keys, matches, |nodes|)
  }

  /** search: compile the pattern, then for every node in order try the keys until
      one matches, recording the node with its 1-based rank. */
  method Search(nodes: seq<Node>, keys: seq<string>, pattern: Pattern) returns (r: Result<seq<(int, Node)>, Exc>)
    ensures r == SearchResult(nodes, keys, pattern)
  {
    if pattern.Invalid? {
      return Err(PatternError);
    }
    var matches := pattern.matches;
    var result: seq<(int, Node)> := [];
    var rank := 1;
    while rank <= |nodes|
      invariant 1 <= rank <= |nodes| + 1
      invariant SearchUpTo(nodes, keys, matches, rank - 1) == Ok(result)
    {
      var cluster := nodes[rank - 1];
      var found := false;
      var j := 0;
      while j < |keys|
        invariant 0 <= j <= |keys|
        invariant KeyScan(cluster, keys, matches) == KeyScan(cluster, keys[j..], matches)
      {
        var field := Field(cluster, keys[j]);
        assert keys[j..][1..] == keys[j + 1..];
        if field.None? {
          assert SearchUpTo(nodes, keys, matches, rank) == Err(TypeError);
          SearchStaysFailed(nodes, keys, matches, rank, |nodes|);
          return Err(TypeError);
        }
        if matches(field.value) {
          found := true;
          break;
        }
        j := j + 1;
      }
      assert KeyScan(cluster, keys, matches) == Some(found);
      if found {
        result := result + [(rank, cluster)];
      }
      rank := rank + 1;
    }
    r := Ok(result);
  }

  /** Once a node has raised, the search as a whole raises the same exception. */
  lemma {:induction false} SearchStaysFailed(nodes: seq<Node>, keys: seq<string>, matches: string -> bool, count: nat, later: nat)
    requires count <= later <= |nodes| && SearchUpTo(nodes, keys, matches, count).Err?
    ensures SearchUpTo(nodes, keys, matches, later) == SearchUpTo(nodes, keys, matches, count)
    decreases later
  {
    if later > count {
      SearchStaysFailed(nodes, keys, matches, count, later - 1);
    }
  }

  /** The pairs come in strictly increasing rank order, each rank `k` paired with
      the `k`-th node, so no node appears twice. */
  lemma {:induction false} SearchOrdered(nodes: seq<Node>, keys: seq<string>, matches: string -> bool, count: nat)
    requires count <= |nodes| && SearchUpTo(nodes, keys, matches, count).Ok?
    ensures var hits := SearchUpTo(nodes, keys, matches, count).value;
      forall j :: 0 <= j < |hits| ==> 1 <= hits[j].0 <= count && hits[j].1 == nodes[hits[j].0 - 1]
    ensures var hits := SearchUpTo(nodes, keys, matches, count).value;
      forall i, j :: 0 <= i < j < |hits| ==> hits[i].0 < hits[j].0
  {
    if count > 0 {
      SearchOrdered(nodes, keys, matches, count - 1);
    }
  }

  /** The search succeeds exactly when, for every node, no key reached before a
      match is missing. */
  lemma {:induction false} SearchSucceeds(nodes: seq<Node>, keys: seq<string>, matches: string -> bool, count: nat)
    requires count <= |nodes|
    ensures SearchUpTo(nodes, keys, matches, count).Ok? <==>
      forall k :: 0 <= k < count ==> KeyScan(nodes[k], keys, matches).Some?
  {
    if count > 0 {
      SearchSucceeds(nodes, keys, matches, count - 1);
    }
  }

  /** Some pair of `hits` carries rank `rank`. */
  predicate Listed(hits: seq<(int, Node)>, rank: int) {
    exists j :: 0 <= j < |hits| && hits[j].0 == rank
  }

  lemma ListedAppend(hits: seq<(int, Node)>, extra: (int, Node), rank: int)
    ensures Listed(hits + [extra], rank) <==> Listed(hits, rank) || extra.0 == rank
  {
    var all := hits + [extra];
    if Listed(all, rank) && extra.0 != rank {
      var j :| 0 <= j < |all| && all[j].0 == rank;
      assert j < |hits| && hits[j].0 == rank;
    }
    if Listed(hits, rank) {
      var j :| 0 <= j < |hits| && hits[j].0 == rank;
      assert all[j].0 == rank;
    }
    if extra.0 == rank {
      assert all[|hits|].0 == rank;
    }
  }

  /** After `count` nodes no pair carries a later rank. */
  lemma SearchFresh(nodes: seq<Node>, keys: seq<string>, matches: string -> bool, count: nat, rank: int)
    requires count <= |nodes| && SearchUpTo(nodes, keys, matches, count).Ok? && rank > count
    ensures !Listed(SearchUpTo(nodes, keys, matches, count).value, rank)
  {
    SearchOrdered(nodes, keys, matches, count);
  }

  /** On success, a node is listed exactly when one of the keys matches it. */
  lemma {:induction false} SearchMembership(nodes: seq<Node>, keys: seq<string>, matches: string -> bool, count: nat)
    requires count <= |nodes| && SearchUpTo(nodes, keys, matches, count).Ok?
    ensures forall k :: 0 <= k < count ==>
      (Listed(SearchUpTo(nodes, keys, matches, count).value, k + 1) <==> KeyScan(nodes[k], keys, matches) == Some(true))
  {
    if count > 0 {
      var before := SearchUpTo(nodes, keys, matches, count - 1).value;
      var hits := SearchUpTo(nodes, keys, matches, count).value;
      SearchMembership(nodes, keys, matches, count - 1);
      SearchFresh(nodes, keys, matches, count - 1, count);
      var found := KeyScan(nodes[count - 1], keys, matches) == Some(true);
      assert hits == if found then before + [(count, nodes[count - 1])] else before;
      forall k | 0 <= k < count
        ensures Listed(hits, k + 1) <==> KeyScan(nodes[k], keys, matches) == Some(true)
      {
        if found {
          ListedAppend(before, (count, nodes[count - 1]), k + 1);
        }
      }
    }
  }

  /** search over the whole list raises exactly when some node reaches a key
      with a missing field before any of its keys matched. */
  lemma SearchRaisesByKeyOrder(nodes: seq<Node>, keys: seq<string>, matches: string -> bool)
    ensures SearchResult(nodes, keys, Compiled(matches)).Err? <==>
      exists k, j :: 0 <= k < |nodes| && MissingFirstAt(nodes[k], keys, matches, j)
  {
    SearchSucceeds(nodes, keys, matches, |nodes|);
    forall k | 0 <= k < |nodes| {
      KeyScanOrder(nodes[k], keys, matches);
    }
  }

  /** When search succeeds, the node at rank k + 1 is listed exactly when the
      first of its keys that decides it matches. */
  lemma SearchListsByKeyOrder(nodes: seq<Node>, keys: seq<string>, matches: string -> bool, k: int)
    requires 0 <= k < |nodes| && SearchResult(nodes, keys, Compiled(matches)).Ok?
    ensures Listed(SearchResult(nodes, keys, Compiled(matches)).value, k + 1) <==>
      exists j :: MatchesFirstAt(nodes[k], keys, matches, j)
  {
    SearchMembership(nodes, keys, matches, |nodes|);
    KeyScanOrder(nodes[k], keys, matches);
  }

  // ---------------------------------------------------------------------------
  // labels

  datatype Status = Online | Banned | Offline

  /** The status of a node, in priority order: online, else banned, else offline. */
  function StatusOf(n: Node): (s: Status)
    ensures s == Online <==> n.isOnline
    ensures s == Banned <==> !n.isOnline && n.isBanned
    ensures s == Offline <==> !n.isOnline && !n.isBanned
  {
    if n.isOnline then Online else if n.isBanned then Banned else Offline
  }

  /** The catalog key of a status; the detail view uses the `.detail` variant. */
  function StatusKey(s: Status, detail: bool): string {
    var base := match s
      case Online => "mcim.message.cluster.online"
      case Banned => "mcim.message.cluster.banned"
      case Offline => "mcim.message.cluster.offline";
    if detail then base + ".detail" else base
  }

  /** Full copy or fragment; the detail view uses the `.detail` variant. */
  function SizeClassKey(fullsize: bool, detail: bool): string {
    var base := if fullsize then "mcim.message.cluster.full" else "mcim.message.cluster.frag";
    if detail then base + ".detail" else base
  }

  function ProxyKey(isProxy: bool): string {
    if isProxy then "mcim.message.cluster.proxy.detail" else "mcim.message.cluster.local.detail"
  }

  const GOLD_KEY := "mcim.message.cluster.gold"
  const SILVER_KEY := "mcim.message.cluster.silver"
  const BRONZE_KEY := "mcim.message.cluster.bronze"

  /** The rank shown in a leaderboard line: a medal for the first three places
      and `str(raw_rank)` for every other value, `None` included. */
  function RankLabel(raw: Option<int>, lang: Lang): (t: Text)
    ensures t == T(lang, GOLD_KEY) <==> raw == Some(1)
    ensures t == T(lang, SILVER_KEY) <==> raw == Some(2)
    ensures t == T(lang, BRONZE_KEY) <==> raw == Some(3)
    ensures raw.Some? && raw.value !in {1, 2, 3} ==> t == Lit(Decimal(raw.value))
    ensures raw.None? ==> t == Lit("None")
  {
    match raw
    case Some(1) => T(lang, GOLD_KEY)
    case Some(2) => T(lang, SILVER_KEY)
    case Some(3) => T(lang, BRONZE_KEY)
    case Some(k) => Lit(Decimal(k))
    case None => Lit("None")
  }

  /** Different ranks never give the same label term: the same medal lookup or
      the same literal text.  (Whether two catalog entries render alike is a
      property of the catalog, which is not modelled.) */
  lemma RankLabelInjective(a: int, b: int, lang: Lang)
    requires RankLabel(Some(a), lang) == RankLabel(Some(b), lang)
    ensures a == b
  {
    if a !in {1, 2, 3} && b !in {1, 2, 3} {
      DecimalInjective(a, b);
    }
  }

  // ---------------------------------------------------------------------------
  // messages

  const TOP_KEY := "mcim.message.top"
  const YESTERDAY_TOP_KEY := "mcim.message.yesterday.top"
  const OWNER_KEY := "mcim.message.owner"

  /** generate_list: one leaderboard line, or `None` where the source raises
      (the byte count is missing, so size_convert divides None). */
  function GenerateList(raw: Option<int>, n: Node, lang: Lang, yesterday: bool): (r: Option<Text>)
    ensures r.Some? <==> n.bytes.Some?
  {
    if n.bytes.None? then None
    else
      var rank := Txt(RankLabel(raw, lang));
      var bytes := SizeVal(HumanSize(n.bytes.value));
      if yesterday then
        Some(Tr(lang, YESTERDAY_TOP_KEY, map[
          Arg.Rank := rank,
          Arg.ClusterName := OfStr(n.clusterName),
          Arg.Hits := OfInt(n.hits),
          Arg.Bytes := bytes,
          Arg.OwnerName := OfStr(n.ownerName)]))
      else
        Some(Join([
          Tr(lang, TOP_KEY, map[
            Arg.Rank := rank,
            Arg.Status := Txt(T(lang, StatusKey(StatusOf(n), false))),
            Arg.Size := Txt(T(lang, SizeClassKey(n.fullsize, false))),
            Arg.ClusterName := OfStr(n.clusterName),
            Arg.Version := OfStr(n.version),
            Arg.Hits := OfInt(n.hits),
            Arg.Bytes := bytes]),
          Lit("\n"),
          Tr(lang, OWNER_KEY, map[Arg.OwnerName := OfStr(n.ownerName)])]))
  }

  /** What a line of the daily ranking shows: its own template with the rank
      tier, the node's name, hits, served bytes and owner, and none of the live
      status, size-class and version fields. */
  lemma YesterdayEntry(raw: Option<int>, n: Node, lang: Lang)
    requires n.bytes.Some?
    ensures var t := GenerateList(raw, n, lang, true).value;
      && t.Tr? && t.lang == lang && t.key == YESTERDAY_TOP_KEY
      && ArgOf(t, Arg.Rank) == Some(Txt(RankLabel(raw, lang)))
      && ArgOf(t, Arg.ClusterName) == Some(OfStr(n.clusterName))
      && ArgOf(t, Arg.Hits) == Some(OfInt(n.hits))
      && ArgOf(t, Arg.Bytes) == Some(SizeVal(HumanSize(n.bytes.value)))
      && ArgOf(t, Arg.OwnerName) == Some(OfStr(n.ownerName))
      && ArgOf(t, Arg.Status).None? && ArgOf(t, Arg.Size).None? && ArgOf(t, Arg.Version).None?
  {
  }

  /** What a line of the live views shows: the rank tier, the status and
      size-class labels, the node's name, version and hits and the size of the
      served bytes, then the owner on a line of its own. */
  lemma LiveEntry(raw: Option<int>, n: Node, lang: Lang)
    requires n.bytes.Some?
    ensures var t := GenerateList(raw, n, lang, false).value;
      && t.Join? && |t.parts| == 3
      && t.parts[0].Tr? && t.parts[0].lang == lang && t.parts[0].key == TOP_KEY
      && ArgOf(t.parts[0], Arg.Rank) == Some(Txt(RankLabel(raw, lang)))
      && ArgOf(t.parts[0], Arg.Status) == Some(Txt(T(lang, StatusKey(StatusOf(n), false))))
      && ArgOf(t.parts[0], Arg.Size) == Some(Txt(T(lang, SizeClassKey(n.fullsize, false))))
      && ArgOf(t.parts[0], Arg.ClusterName) == Some(OfStr(n.clusterName))
      && ArgOf(t.parts[0], Arg.Version) == Some(OfStr(n.version))
      && ArgOf(t.parts[0], Arg.Hits) == Some(OfInt(n.hits))
      && ArgOf(t.parts[0], Arg.Bytes) == Some(SizeVal(HumanSize(n.bytes.value)))
      && t.parts[1] == Lit("\n")
      && t.parts[2] == Tr(lang, OWNER_KEY, map[Arg.OwnerName := OfStr(n.ownerName)])
  {
  }

  const STATUS_KEY := "mcim.message.status"

  /** The time since the dashboard's start as `timedelta` shows it: whole days,
      then hours, minutes and seconds of the remaining part of a day. */
  datatype Uptime = Uptime(days: int, hours: int, minutes: int, seconds: int)

  const MICROS_PER_DAY := 86400000000
  const MICROS_PER_SECOND := 1000000

  /** The days / divmod split of generate_dashboard, from the elapsed time in
      microseconds (negative when the clock is behind the start time). */
  function UptimeOf(elapsedMicros: int): (u: Uptime)
    ensures 0 <= u.hours < 24 && 0 <= u.minutes < 60 && 0 <= u.seconds < 60
    ensures u.days * 86400 + u.hours * 3600 + u.minutes * 60 + u.seconds == elapsedMicros / MICROS_PER_SECOND
  {
    var days := elapsedMicros / MICROS_PER_DAY;
    var remainder := elapsedMicros % MICROS_PER_DAY;
    var seconds := remainder / MICROS_PER_SECOND;
    DaySplit(elapsedMicros, days, remainder);
    Uptime(days, seconds / 3600, (seconds % 3600) / 60, (seconds % 3600) % 60)
  }

  lemma DaySplit(e: int, days: int, remainder: int)
    requires days == e / MICROS_PER_DAY && remainder == e % MICROS_PER_DAY
    ensures e / MICROS_PER_SECOND == days * 86400 + remainder / MICROS_PER_SECOND
  {
    assert e == days * MICROS_PER_DAY + remainder;
    assert days * MICROS_PER_DAY == (days * 86400) * MICROS_PER_SECOND;
  }

  /** generate_dashboard, with `datetime.now()` given as `nowMicros`; `None` where
      the source raises (no `today`, or a missing size or start time). */
  function GenerateDashboard(d: Dashboard, nowMicros: int, lang: Lang): (r: Option<Text>)
    ensures r.Some? <==> d.today.Some? && d.today.value.bytes.Some? && d.totalSize.Some? && d.startTime.Some?
    ensures r.Some? ==>
      && r.value.Tr? && r.value.lang == lang && r.value.key == STATUS_KEY
      && ArgOf(r.value, Arg.Onlines) == Some(OfInt(d.onlines))
      && ArgOf(r.value, Arg.Hits) == Some(OfInt(d.today.value.hits))
      && ArgOf(r.value, Arg.Size) == Some(SizeVal(HumanSize(d.today.value.bytes.value)))
      && ArgOf(r.value, Arg.TotalSize) == Some(SizeVal(HumanSize(d.totalSize.value)))
  {
    if d.today.None? || d.today.value.bytes.None? || d.totalSize.None? || d.startTime.None? then None
    else
      var u := UptimeOf(nowMicros - d.startTime.value * 1000);
      Some(Tr(lang, STATUS_KEY, map[
        Arg.Onlines := OfInt(d.onlines),
        Arg.Hits := OfInt(d.today.value.hits),
        Arg.Size := SizeVal(HumanSize(d.today.value.bytes.value)),
        Arg.Sources := OfInt(d.sources),
        Arg.TotalFiles := OfInt(d.totalFiles),
        Arg.TotalSize := SizeVal(HumanSize(d.totalSize.value)),
        Arg.RunningDays := Int(u.days),
        Arg.RunningHours := Int(u.hours),
        Arg.RunningMinutes := Int(u.minutes),
        Arg.RunningSeconds := Int(u.seconds)]))
  }

  /** The running time on the dashboard is the uptime split of the time since
      the start (given in milliseconds). */
  lemma DashboardUptime(d: Dashboard, nowMicros: int, lang: Lang)
    requires GenerateDashboard(d, nowMicros, lang).Some?
    ensures var t := GenerateDashboard(d, nowMicros, lang).value;
      var u := UptimeOf(nowMicros - d.startTime.value * 1000);
      && ArgOf(t, Arg.RunningDays) == Some(Int(u.days))
      && ArgOf(t, Arg.RunningHours) == Some(Int(u.hours))
      && ArgOf(t, Arg.RunningMinutes) == Some(Int(u.minutes))
      && ArgOf(t, Arg.RunningSeconds) == Some(Int(u.seconds))
  {
  }

  /** The source and file counts on the dashboard are passed through as fetched. */
  lemma DashboardCounts(d: Dashboard, nowMicros: int, lang: Lang)
    requires GenerateDashboard(d, nowMicros, lang).Some?
    ensures var t := GenerateDashboard(d, nowMicros, lang).value;
      && ArgOf(t, Arg.Sources) == Some(OfInt(d.sources))
      && ArgOf(t, Arg.TotalFiles) == Some(OfInt(d.totalFiles))
  {
  }

  const CACHE_KEY := "mcim.message.cached.status"

  /** The value a counter that is present passes to the catalog: a number, or
      `None` for a JSON null. */
  function CounterArg(k: Counter): Val
    requires !k.Absent?
  {
    if k.Null? then Nil else Int(k.n)
  }

  /** generate_cache: the counters passed through unchanged, nulls included;
      `None` where a subscript raises (an absent key, or an absent or null
      group). */
  function GenerateCache(c: CacheSnapshot, lang: Lang): (r: Option<Text>)
    ensures r.Some? <==>
      && c.curseforge.Some? && c.modrinth.Some? && c.fileCdn.Some?
      && !c.curseforge.value.mod.Absent? && !c.curseforge.value.file.Absent?
      && !c.curseforge.value.fingerprint.Absent?
      && !c.modrinth.value.project.Absent? && !c.modrinth.value.version.Absent?
      && !c.modrinth.value.file.Absent? && !c.fileCdn.value.file.Absent?
    ensures r.Some? ==>
      && r.value.Tr? && r.value.lang == lang && r.value.key == CACHE_KEY
      && ArgOf(r.value, Arg.CfMod) == Some(CounterArg(c.curseforge.value.mod))
      && ArgOf(r.value, Arg.CfFile) == Some(CounterArg(c.curseforge.value.file))
      && ArgOf(r.value, Arg.CfFingerprint) == Some(CounterArg(c.curseforge.value.fingerprint))
      && ArgOf(r.value, Arg.MrProject) == Some(CounterArg(c.modrinth.value.project))
      && ArgOf(r.value, Arg.MrVersion) == Some(CounterArg(c.modrinth.value.version))
      && ArgOf(r.value, Arg.MrFile) == Some(CounterArg(c.modrinth.value.file))
      && ArgOf(r.value, Arg.CdnFile) == Some(CounterArg(c.fileCdn.value.file))
  {
    if c.curseforge.None? || c.modrinth.None? || c.fileCdn.None? then None
    else
      var cf, mr, cdn := c.curseforge.value, c.modrinth.value, c.fileCdn.value;
      if cf.mod.Absent? || cf.file.Absent? || cf.fingerprint.Absent? || mr.project.Absent?
         || mr.version.Absent? || mr.file.Absent? || cdn.file.Absent? then None
      else
        Some(Tr(lang, CACHE_KEY, map[
          Arg.CfMod := CounterArg(cf.mod),
          Arg.CfFile := CounterArg(cf.file),
          Arg.CfFingerprint := CounterArg(cf.fingerprint),
          Arg.MrProject := CounterArg(mr.project),
          Arg.MrVersion := CounterArg(mr.version),
          Arg.MrFile := CounterArg(mr.file),
          Arg.CdnFile := CounterArg(cdn.file)]))
  }

  /** A null counter does not stop the cache line: it is shown as `None`, while
      the same counter absent makes the subscript raise. */
  lemma CacheNullCounter(cf: CurseForgeStats, mr: ModrinthStats, cdn: CdnStats, lang: Lang)
    requires !cf.file.Absent? && !cf.fingerprint.Absent?
    requires !mr.project.Absent? && !mr.version.Absent? && !mr.file.Absent? && !cdn.file.Absent?
    ensures var r := GenerateCache(CacheSnapshot(Some(cf.(mod := Null)), Some(mr), Some(cdn)), lang);
      r.Some? && ArgOf(r.value, Arg.CfMod) == Some(Nil)
    ensures GenerateCache(CacheSnapshot(Some(cf.(mod := Absent)), Some(mr), Some(cdn)), lang).None?
  {
  }

  const CLUSTER_STATUS_KEY := "mcim.message.cluster.status"
  const CLUSTER_DETAIL_KEY := "mcim.message.cluster.detail"
  const MASTERSTAT_KEY := "mcim.message.cluster.masterstat"
  const SPONSOR_KEY := "mcim.message.sponsor"

  /** generate_cluster: the detail view as two blocks, a status line and then the
      detail, owner and sponsor lines (stated by ClusterDetail); `None` where the
      source raises (a missing byte count, creation time or down time). */
  function GenerateCluster(n: Node, lang: Lang): (r: Option<seq<seq<Text>>>)
    ensures r.Some? <==> n.bytes.Some? && n.createdAt.Some? && n.downTime.Some?
    ensures r.Some? ==>
      && |r.value| == 2 && |r.value[0]| == 1 && |r.value[1]| == 3
      && r.value[0][0].Tr? && r.value[0][0].lang == lang && r.value[0][0].key == CLUSTER_STATUS_KEY
      && ArgOf(r.value[0][0], Arg.ClusterName) == Some(OfStr(n.clusterName))
      && ArgOf(r.value[0][0], Arg.Status) == Some(Txt(T(lang, StatusKey(StatusOf(n), true))))
      && ArgOf(r.value[0][0], Arg.Hits) == Some(OfInt(n.hits))
      && ArgOf(r.value[0][0], Arg.Bytes) == Some(SizeVal(HumanSize(n.bytes.value)))
      && ArgOf(r.value[0][0], Arg.Bandwidth) == Some(OfNum(n.bandwidth))
  {
    if n.bytes.None? || n.createdAt.None? || n.downTime.None? then None
    else
      var statusLine := Tr(lang, CLUSTER_STATUS_KEY, map[
        Arg.ClusterName := OfStr(n.clusterName),
        Arg.Status := Txt(T(lang, StatusKey(StatusOf(n), true))),
        Arg.Hits := OfInt(n.hits),
        Arg.Bytes := SizeVal(HumanSize(n.bytes.value)),
        Arg.Bandwidth := OfNum(n.bandwidth)]);
      var detailLine := Tr(lang, CLUSTER_DETAIL_KEY, map[
        Arg.ClusterId := OfStr(n.clusterId),
        Arg.Fullsize := Txt(T(lang, SizeClassKey(n.fullsize, true))),
        Arg.Proxy := Txt(T(lang, ProxyKey(n.isProxy))),
        Arg.Stat := Txt(T(lang, MASTERSTAT_KEY)),
        Arg.Version := OfStr(n.version),
        Arg.CreatedAt := Time(n.createdAt.value / 1000.0),
        Arg.DownTime := Time(n.downTime.value / 1000.0)]);
      var ownerLine := Tr(lang, OWNER_KEY, map[Arg.OwnerName := OfStr(n.ownerName)]);
      var sponsorLine := Tr(lang, SPONSOR_KEY, map[
        Arg.Sponsor := OfStr(n.sponsor),
        Arg.SponsorUrl := OfStr(n.sponsorUrl)]);
      Some([[statusLine], [detailLine, ownerLine, sponsorLine]])
  }

  /** The first line of the second block of the detail view: the node's id,
      size class, proxy label, master stat and version (the timestamps are
      stated by ClusterTimes). */
  lemma ClusterDetail(n: Node, lang: Lang)
    requires n.bytes.Some? && n.createdAt.Some? && n.downTime.Some?
    ensures var block := GenerateCluster(n, lang).value[1];
      && block[0].Tr? && block[0].lang == lang && block[0].key == CLUSTER_DETAIL_KEY
      && ArgOf(block[0], Arg.ClusterId) == Some(OfStr(n.clusterId))
      && ArgOf(block[0], Arg.Fullsize) == Some(Txt(T(lang, SizeClassKey(n.fullsize, true))))
      && ArgOf(block[0], Arg.Proxy) == Some(Txt(T(lang, ProxyKey(n.isProxy))))
      && ArgOf(block[0], Arg.Stat) == Some(Txt(T(lang, MASTERSTAT_KEY)))
      && ArgOf(block[0], Arg.Version) == Some(OfStr(n.version))
  {
  }

  /** The detail line shows the creation and down times, given in milliseconds,
      as `ts2strftime` of the seconds. */
  lemma ClusterTimes(n: Node, lang: Lang)
    requires n.bytes.Some? && n.createdAt.Some? && n.downTime.Some?
    ensures var line := GenerateCluster(n, lang).value[1][0];
      && ArgOf(line, Arg.CreatedAt) == Some(Time(n.createdAt.value / 1000.0))
      && ArgOf(line, Arg.DownTime) == Some(Time(n.downTime.value / 1000.0))
  {
  }

  /** The owner and sponsor lines that close the detail view. */
  lemma ClusterContacts(n: Node, lang: Lang)
    requires n.bytes.Some? && n.createdAt.Some? && n.downTime.Some?
    ensures var block := GenerateCluster(n, lang).value[1];
      && block[1] == Tr(lang, OWNER_KEY, map[Arg.OwnerName := OfStr(n.ownerName)])
      && block[2].Tr? && block[2].lang == lang && block[2].key == SPONSOR_KEY
      && ArgOf(block[2], Arg.Sponsor) == Some(OfStr(n.sponsor))
      && ArgOf(block[2], Arg.SponsorUrl) == Some(OfStr(n.sponsorUrl))
  {
  }

  const SOURCE_KEY := "mcim.message.source"

  /** generate_source: the plugin flag becomes the catalog's yes or no. */
  function GenerateSource(src: Source, lang: Lang): (r: Text)
    ensures r.Tr? && r.lang == lang && r.key == SOURCE_KEY
    ensures ArgOf(r, Arg.IsFromPlugin) == Some(Txt(T(lang, if src.isFromPlugin then "message.yes" else "message.no")))
    ensures ArgOf(r, Arg.Name) == Some(OfStr(src.name)) && ArgOf(r, Arg.Count) == Some(OfInt(src.count))
    ensures ArgOf(r, Arg.LastUpdated) == Some(OfStr(src.lastUpdated))
  {
    Tr(lang, SOURCE_KEY, map[
      Arg.Name := OfStr(src.name),
      Arg.Count := OfInt(src.count),
      Arg.LastUpdated := OfStr(src.lastUpdated),
      Arg.IsFromPlugin := Txt(T(lang, if src.isFromPlugin then "message.yes" else "message.no"))])
  }
}
