/** The command handlers of the bot module (__init__.py).  Fetched JSON is an
    input of each handler and everything the handler hands to the chat framework
    is its output: the messages it sends, in order, and the exception it ends
    with, if any.  `msg.finish` ends the handler. */
module Handlers {
  import opened Wrappers
  import opened I18n
  import opened Records
  import opened Utils
  import opened Draw

  /** The fields a keyword search tries, in priority order. */
  const DEFAULT_KEY: seq<string> := ["clusterName", "ownerName", "sponsor"]

  const HITS_COLOR := "#3F51C0"
  const BYTES_COLOR := "#FFA500"
  const REJECTED_COLOR := "#FF0000"

  /** The subscriber channel the scheduled report is posted to. */
  const RSS_TARGET := "mcim_rss"

  const INVALID_KEY := "mcim.message.cluster.invalid"
  const EMPTY_KEY := "mcim.message.result.empty"
  const BANNER_FAILED_KEY := "mcim.message.banner.failed"
  const YESTERDAY_STATUS_KEY := "mcim.message.yesterday.status"
  const YESTERDAY_FAILED_KEY := "mcim.message.yesterday.failed"
  const HITS_LABEL_KEY := "mcim.message.yesterday.hits"
  const BYTES_LABEL_KEY := "mcim.message.yesterday.bytes"
  const REJECTED_LABEL_KEY := "mcim.message.yesterday.rejected"

  datatype Dest = Reply | Broadcast(target: string)
  datatype Picture = Banner(url: string) | Plot(chart: Chart)
  datatype Item = Line(text: Text) | Image(picture: Picture)
  datatype Send = Send(dest: Dest, items: seq<Item>)

  /** Everything a handler run delivers, and the exception it ends with. */
  datatype Outcome = Outcome(sent: seq<Send>, raised: Option<Exc>)

  /** `msg.finish(items)` as the only delivery of a run. */
  function Finish(items: seq<Item>): Outcome {
    Outcome([Send(Reply, items)], None)
  }

  /** A run that raises before delivering anything. */
  function Raise(e: Exc): Outcome {
    Outcome([], Some(e))
  }

  function Lines(ts: seq<Text>): seq<Item>
  {
    seq(|ts|, i requires 0 <= i < |ts| => Line(ts[i]))
  }

  function Images(charts: seq<Chart>): seq<Item>
  {
    seq(|charts|, i requires 0 <= i < |charts| => Image(Plot(charts[i])))
  }

  // ---------------------------------------------------------------------------
  // How a loop of formatting calls ends

  /** A loop that lets a formatting exception propagate: every result, or `None`
      as soon as one of them raised. */
  function AllOrNone<T>(xs: seq<Option<T>>): (r: Option<seq<T>>)
    ensures r.Some? <==> forall i :: 0 <= i < |xs| ==> xs[i].Some?
    ensures r.Some? ==> |r.value| == |xs| && forall i :: 0 <= i < |xs| ==> xs[i] == Some(r.value[i])
  {
    if xs == [] then Some([])
    else
      var init := AllOrNone(xs[..|xs| - 1]);
      var last := xs[|xs| - 1];
      if init.None? || last.None? then None else Some(init.value + [last.value])
  }

  lemma AllOrNoneSnoc<T>(xs: seq<Option<T>>, x: Option<T>)
    ensures AllOrNone(xs + [x]) ==
      if AllOrNone(xs).Some? && x.Some? then Some(AllOrNone(xs).value + [x.value]) else None
  {
    assert (xs + [x])[..|xs|] == xs;
  }

  /** A loop that stops at the first formatting exception (`except: break`): the
      results before the first failure. */
  function UntilNone<T>(xs: seq<Option<T>>): (r: seq<T>)
    ensures |r| <= |xs|
    ensures forall i :: 0 <= i < |r| ==> xs[i] == Some(r[i])
    ensures |r| < |xs| ==> xs[|r|].None?
  {
    if xs == [] || xs[0].None? then []
    else
      var rest := UntilNone(xs[1..]);
      assert forall i :: 1 <= i < |xs| ==> xs[i] == xs[1..][i - 1];
      [xs[0].value] + rest
  }

  /** Stopping early keeps the results a prefix: cutting the input shorter can
      only cut the output shorter. */
  lemma {:induction false} UntilNonePrefix<T>(xs: seq<Option<T>>, m: nat)
    requires m <= |xs|
    ensures UntilNone(xs[..m]) <= UntilNone(xs)
  {
    if m > 0 && xs[0].Some? {
      assert xs[..m][1..] == xs[1..][..m - 1];
      UntilNonePrefix(xs[1..], m - 1);
    }
  }

  /** The length of the longest prefix of `s` whose elements all satisfy `p`. */
  function LeadingRun<T>(s: seq<T>, p: T -> bool): (k: nat)
    ensures k <= |s|
    ensures forall i :: 0 <= i < k ==> p(s[i])
    ensures k < |s| ==> !p(s[k])
  {
    if s == [] || !p(s[0]) then 0
    else
      var rest := LeadingRun(s[1..], p);
      assert forall i :: 1 <= i < |s| ==> s[i] == s[1..][i - 1];
      1 + rest
  }

  // ---------------------------------------------------------------------------
  // Leaderboard views

  /** `enumerate(nodes, start=1)`. */
  function Ranked(nodes: seq<Node>): seq<(int, Node)>
  {
    seq(|nodes|, i requires 0 <= i < |nodes| => (i + 1, nodes[i]))
  }

  /** The leaderboard line of every (rank, node) pair, or `None` where it raises. */
  function Entries(hits: seq<(int, Node)>, lang: Lang): seq<Option<Text>>
  {
    seq(|hits|, i requires 0 <= i < |hits| => GenerateList(Some(hits[i].0), hits[i].1, lang, false))
  }

  lemma EntriesSnoc(hits: seq<(int, Node)>, hit: (int, Node), lang: Lang)
    ensures Entries(hits + [hit], lang) == Entries(hits, lang) + [GenerateList(Some(hit.0), hit.1, lang, false)]
  {
  }

  /** How online, banned and search end: the lines of the selected pairs, the
      "empty" message when there are none, or the exception of a line that
      raises, before anything is sent. */
  function Listing(hits: seq<(int, Node)>, lang: Lang): Outcome {
    match AllOrNone(Entries(hits, lang))
    case None => Raise(TypeError)
    case Some(lines) => if lines == [] then Finish([Line(T(lang, EMPTY_KEY))]) else Finish(Lines(lines))
  }

  /** A listing is one reply holding one line per selected pair, in order, each
      with the pair's own rank; or the single "empty" message; or, when some
      selected node cannot be formatted, nothing at all. */
  lemma ListingShape(hits: seq<(int, Node)>, lang: Lang)
    ensures Listing(hits, lang).raised.None? <==> forall i :: 0 <= i < |hits| ==> hits[i].1.bytes.Some?
    ensures Listing(hits, lang).raised.Some? ==> Listing(hits, lang).sent == []
    ensures hits == [] ==> Listing(hits, lang) == Finish([Line(T(lang, EMPTY_KEY))])
    ensures Listing(hits, lang).raised.None? && hits != [] ==>
      var items := Listing(hits, lang).sent[0].items;
      && |Listing(hits, lang).sent| == 1
      && |items| == |hits|
      && forall i :: 0 <= i < |hits| ==> Some(items[i].text) == GenerateList(Some(hits[i].0), hits[i].1, lang, false)
  {
    var xs := Entries(hits, lang);
    if forall i :: 0 <= i < |hits| ==> hits[i].1.bytes.Some? {
      assert forall i :: 0 <= i < |xs| ==> xs[i].Some?;
    } else {
      var i :| 0 <= i < |hits| && hits[i].1.bytes.None?;
      assert xs[i].None?;
    }
  }

  /** One selected node that cannot be formatted makes the whole listing raise. */
  lemma ListingRaises(hits: seq<(int, Node)>, i: nat, lang: Lang)
    requires i < |hits| && hits[i].1.bytes.None?
    ensures Listing(hits, lang) == Raise(TypeError)
  {
    assert Entries(hits, lang)[i].None?;
  }

  /** Extending the selection by one formattable pair extends the lines by its line. */
  lemma ListingGrows(hits: seq<(int, Node)>, hit: (int, Node), lang: Lang, lines: seq<Text>)
    requires AllOrNone(Entries(hits, lang)) == Some(lines) && hit.1.bytes.Some?
    ensures AllOrNone(Entries(hits + [hit], lang)) == Some(lines + [GenerateList(Some(hit.0), hit.1, lang, false).value])
  {
    EntriesSnoc(hits, hit, lang);
    AllOrNoneSnoc(Entries(hits, lang), GenerateList(Some(hit.0), hit.1, lang, false));
  }

  /** ListingGrows for the prefixes of one sequence of pairs. */
  lemma ListingGrowsAt(hits: seq<(int, Node)>, i: nat, lang: Lang, lines: seq<Text>)
    requires i < |hits| && AllOrNone(Entries(hits[..i], lang)) == Some(lines) && hits[i].1.bytes.Some?
    ensures AllOrNone(Entries(hits[..i + 1], lang)) == Some(lines + [GenerateList(Some(hits[i].0), hits[i].1, lang, false).value])
  {
    assert hits[..i + 1] == hits[..i] + [hits[i]];
    ListingGrows(hits[..i], hits[i], lang, lines);
  }

  /** A listing whose lines are all formatted. */
  lemma ListingDone(hits: seq<(int, Node)>, lang: Lang, lines: seq<Text>)
    requires AllOrNone(Entries(hits, lang)) == Some(lines)
    ensures Listing(hits, lang) == if lines != [] then Finish(Lines(lines)) else Finish([Line(T(lang, EMPTY_KEY))])
  {
  }

  lemma RankedSnoc(nodes: seq<Node>, count: nat)
    requires 0 < count <= |nodes|
    ensures Ranked(nodes[..count]) == Ranked(nodes[..count - 1]) + [(count, nodes[count - 1])]
  {
  }

  predicate IsOnline(n: Node) {
    n.isOnline
  }

  /** The banned nodes among the first `count`, each with its original rank. */
  function BannedUpTo(nodes: seq<Node>, count: nat): (r: seq<(int, Node)>)
    requires count <= |nodes|
    ensures forall j :: 0 <= j < |r| ==> 1 <= r[j].0 <= count && r[j].1 == nodes[r[j].0 - 1] && r[j].1.isBanned
    ensures forall i, j :: 0 <= i < j < |r| ==> r[i].0 < r[j].0
  {
    if count == 0 then []
    else if nodes[count - 1].isBanned then BannedUpTo(nodes, count - 1) + [(count, nodes[count - 1])]
    else BannedUpTo(nodes, count - 1)
  }

  /** No pair among the first `count` nodes carries a later rank. */
  lemma BannedFresh(nodes: seq<Node>, count: nat, rank: int)
    requires count <= |nodes| && rank > count
    ensures !Listed(BannedUpTo(nodes, count), rank)
  {
  }

  /** The node at position `k` is listed among the first `count` iff it is banned. */
  lemma {:induction false} BannedListed(nodes: seq<Node>, count: nat, k: nat)
    requires k < count <= |nodes|
    ensures Listed(BannedUpTo(nodes, count), k + 1) <==> nodes[k].isBanned
  {
    var before := BannedUpTo(nodes, count - 1);
    if k < count - 1 {
      BannedListed(nodes, count - 1, k);
    } else {
      BannedFresh(nodes, count - 1, count);
    }
    if nodes[count - 1].isBanned {
      ListedAppend(before, (count, nodes[count - 1]), k + 1);
    }
  }

  /** Every banned node is listed, and only banned nodes are. */
  lemma BannedMembership(nodes: seq<Node>)
    ensures forall k :: 0 <= k < |nodes| ==> (Listed(BannedUpTo(nodes, |nodes|), k + 1) <==> nodes[k].isBanned)
  {
    forall k | 0 <= k < |nodes|
      ensures Listed(BannedUpTo(nodes, |nodes|), k + 1) <==> nodes[k].isBanned
    {
      BannedListed(nodes, |nodes|, k);
    }
  }

  /** rank: the detail view of the node at 1-based position `rank`, then its
      sponsor banner (or the banner-failed message when it has none). */
  function ClusterReply(n: Node, lang: Lang): Outcome {
    match GenerateCluster(n, lang)
    case None => Raise(TypeError)
    case Some(blocks) =>
      var banner := if n.sponsorBanner.Some? then [Image(Banner(n.sponsorBanner.value))]
                    else [Line(T(lang, BANNER_FAILED_KEY))];
      Outcome([Send(Reply, Lines(blocks[0])), Send(Reply, Lines(blocks[1])), Send(Reply, banner)], None)
  }

  method Rank(nodes: seq<Node>, rank: int, lang: Lang) returns (out: Outcome)
    ensures out == Finish([Line(T(lang, INVALID_KEY))]) <==> rank < 1 || rank > |nodes|
    ensures 1 <= rank <= |nodes| ==> out == ClusterReply(nodes[rank - 1], lang)
  {
    if rank < 1 || rank > |nodes| {
      return Finish([Line(T(lang, INVALID_KEY))]);
    }
    var cluster := nodes[rank - 1];
    var msgList := GenerateCluster(cluster, lang);
    if msgList.None? {
      return Raise(TypeError);
    }
    var sent := [Send(Reply, Lines(msgList.value[0])), Send(Reply, Lines(msgList.value[1]))];
    if cluster.sponsorBanner.Some? {
      out := Outcome(sent + [Send(Reply, [Image(Banner(cluster.sponsorBanner.value))])], None);
    } else {
      out := Outcome(sent + [Send(Reply, [Line(T(lang, BANNER_FAILED_KEY))])], None);
    }
  }

  /** online: the nodes from the top of the list down to the first offline one. */
  method Online(nodes: seq<Node>, lang: Lang) returns (out: Outcome)
    ensures out == Listing(Ranked(nodes[..LeadingRun(nodes, IsOnline)]), lang)
  {
    ghost var k := LeadingRun(nodes, IsOnline);
    var msgList: seq<Text> := [];
    var rank := 1;
    while rank <= |nodes|
      invariant 1 <= rank <= |nodes| + 1
      invariant rank - 1 <= k
      invariant AllOrNone(Entries(Ranked(nodes[..rank - 1]), lang)) == Some(msgList)
    {
      var cluster := nodes[rank - 1];
      if !cluster.isOnline {
        break;
      }
      var line := GenerateList(Some(rank), cluster, lang, false);
      if line.None? {
        assert Ranked(nodes[..k])[rank - 1] == (rank, cluster);
        ListingRaises(Ranked(nodes[..k]), rank - 1, lang);
        return Raise(TypeError);
      }
      RankedSnoc(nodes, rank);
      ListingGrows(Ranked(nodes[..rank - 1]), (rank, cluster), lang, msgList);
      msgList := msgList + [line.value];
      rank := rank + 1;
    }
    assert k == rank - 1;
    ListingDone(Ranked(nodes[..k]), lang, msgList);
    if msgList != [] {
      out := Finish(Lines(msgList));
    } else {
      out := Finish([Line(T(lang, EMPTY_KEY))]);
    }
  }

  /** A banned node that cannot be formatted makes the whole listing raise. */
  lemma BannedRaises(nodes: seq<Node>, k: nat, lang: Lang)
    requires k < |nodes| && nodes[k].isBanned && nodes[k].bytes.None?
    ensures Listing(BannedUpTo(nodes, |nodes|), lang) == Raise(TypeError)
  {
    var all := BannedUpTo(nodes, |nodes|);
    BannedListed(nodes, |nodes|, k);
    var j :| 0 <= j < |all| && all[j].0 == k + 1;
    ListingRaises(all, j, lang);
  }

  /** banned: every banned node, with its original rank. */
  method Banned(nodes: seq<Node>, lang: Lang) returns (out: Outcome)
    ensures out == Listing(BannedUpTo(nodes, |nodes|), lang)
  {
    var msgList: seq<Text> := [];
    var rank := 1;
    while rank <= |nodes|
      invariant 1 <= rank <= |nodes| + 1
      invariant AllOrNone(Entries(BannedUpTo(nodes, rank - 1), lang)) == Some(msgList)
    {
      var cluster := nodes[rank - 1];
      if cluster.isBanned {
        var line := GenerateList(Some(rank), cluster, lang, false);
        if line.None? {
          BannedRaises(nodes, rank - 1, lang);
          return Raise(TypeError);
        }
        ListingGrows(BannedUpTo(nodes, rank - 1), (rank, cluster), lang, msgList);
        msgList := msgList + [line.value];
      }
      rank := rank + 1;
    }
    ListingDone(BannedUpTo(nodes, |nodes|), lang, msgList);
    if msgList != [] {
      out := Finish(Lines(msgList));
    } else {
      out := Finish([Line(T(lang, EMPTY_KEY))]);
    }
  }

  /** top: the first `count` lines, cut short at the first one that raises. */
  method Top(nodes: seq<Node>, count: int, lang: Lang) returns (out: Outcome)
    ensures count < 1 || count > |nodes| ==> out == Finish([Line(T(lang, INVALID_KEY))])
    ensures 1 <= count <= |nodes| ==> out == Finish(Lines(UntilNone(Entries(Ranked(nodes[..count]), lang))))
  {
    if count < 1 || count > |nodes| {
      return Finish([Line(T(lang, INVALID_KEY))]);
    }
    ghost var xs := Entries(Ranked(nodes[..count]), lang);
    var msgList: seq<Text> := [];
    var i := 0;
    while i < count
      invariant 0 <= i <= count
      invariant UntilNone(xs) == msgList + UntilNone(xs[i..])
    {
      var line := GenerateList(Some(i + 1), nodes[i], lang, false);
      RankedEntryAt(nodes, count, i, lang);
      if line.None? {
        break;
      }
      UntilNoneAdvance(xs, i, msgList);
      msgList := msgList + [line.value];
      i := i + 1;
    }
    UntilNoneStop(xs, i, msgList);
    out := Finish(Lines(msgList));
  }

  /** The numbers `rank [<rank>]` and `top [<rank>]` use when none is given. */
  const DEFAULT_RANK := 1
  const DEFAULT_TOP := 10

  /** The `rank` command with its optional number: the first node's detail view
      when none is given, and the invalid message then only for an empty list. */
  method RankCommand(nodes: seq<Node>, arg: Option<int>, lang: Lang) returns (out: Outcome)
    ensures var rank := if arg.Some? then arg.value else DEFAULT_RANK;
      && (out == Finish([Line(T(lang, INVALID_KEY))]) <==> rank < 1 || rank > |nodes|)
      && (1 <= rank <= |nodes| ==> out == ClusterReply(nodes[rank - 1], lang))
    ensures arg.None? ==> (out == Finish([Line(T(lang, INVALID_KEY))]) <==> nodes == [])
  {
    var rank := if arg.Some? then arg.value else DEFAULT_RANK;
    out := Rank(nodes, rank, lang);
  }

  /** The `top` command with its optional number: the first ten lines when none
      is given, so a bare `top` over fewer than ten nodes gets the invalid
      message. */
  method TopCommand(nodes: seq<Node>, arg: Option<int>, lang: Lang) returns (out: Outcome)
    ensures var count := if arg.Some? then arg.value else DEFAULT_TOP;
      && (count < 1 || count > |nodes| ==> out == Finish([Line(T(lang, INVALID_KEY))]))
      && (1 <= count <= |nodes| ==> out == Finish(Lines(UntilNone(Entries(Ranked(nodes[..count]), lang)))))
    ensures arg.None? && |nodes| < DEFAULT_TOP ==> out == Finish([Line(T(lang, INVALID_KEY))])
    ensures arg.None? && |nodes| >= DEFAULT_TOP ==>
      out == Finish(Lines(UntilNone(Entries(Ranked(nodes[..DEFAULT_TOP]), lang))))
  {
    var count := if arg.Some? then arg.value else DEFAULT_TOP;
    out := Top(nodes, count, lang);
  }

  lemma RankedEntryAt(nodes: seq<Node>, count: nat, i: nat, lang: Lang)
    requires i < count <= |nodes|
    ensures Entries(Ranked(nodes[..count]), lang)[i] == GenerateList(Some(i + 1), nodes[i], lang, false)
  {
  }

  /** One more result collected before the first failure. */
  lemma UntilNoneAdvance<T>(xs: seq<Option<T>>, i: nat, acc: seq<T>)
    requires i < |xs| && xs[i].Some? && UntilNone(xs) == acc + UntilNone(xs[i..])
    ensures UntilNone(xs) == (acc + [xs[i].value]) + UntilNone(xs[i + 1..])
  {
    UntilNoneStep(xs, i);
    assert acc + ([xs[i].value] + UntilNone(xs[i + 1..])) == (acc + [xs[i].value]) + UntilNone(xs[i + 1..]);
  }

  /** The collection ends at the end of the input or at the first failure. */
  lemma UntilNoneStop<T>(xs: seq<Option<T>>, i: nat, acc: seq<T>)
    requires i <= |xs| && (i == |xs| || xs[i].None?) && UntilNone(xs) == acc + UntilNone(xs[i..])
    ensures UntilNone(xs) == acc
  {
    if i == |xs| {
      assert xs[i..] == [];
    } else {
      UntilNoneStep(xs, i);
    }
  }

  lemma UntilNoneStep<T>(xs: seq<Option<T>>, i: nat)
    requires i < |xs|
    ensures UntilNone(xs[i..]) == if xs[i].None? then [] else [xs[i].value] + UntilNone(xs[i + 1..])
  {
    assert xs[i..][0] == xs[i];
    assert xs[i..][1..] == xs[i + 1..];
  }

  /** The top-n listing holds at most n lines and is a prefix of the full one. */
  lemma TopIsPrefix(nodes: seq<Node>, count: nat, lang: Lang)
    requires count <= |nodes|
    ensures |UntilNone(Entries(Ranked(nodes[..count]), lang))| <= count
    ensures UntilNone(Entries(Ranked(nodes[..count]), lang)) <= UntilNone(Entries(Ranked(nodes), lang))
  {
    var xs := Entries(Ranked(nodes), lang);
    assert Entries(Ranked(nodes[..count]), lang) == xs[..count];
    UntilNonePrefix(xs, count);
  }

  /** search: the lines of the (rank, node) pairs the keyword search returns. */
  method Search(nodes: seq<Node>, pattern: Pattern, lang: Lang) returns (out: Outcome)
    ensures SearchResult(nodes, DEFAULT_KEY, pattern).Err? ==>
      out == Raise(SearchResult(nodes, DEFAULT_KEY, pattern).error)
    ensures SearchResult(nodes, DEFAULT_KEY, pattern).Ok? ==>
      out == Listing(SearchResult(nodes, DEFAULT_KEY, pattern).value, lang)
  {
    var clusterList := Utils.Search(nodes, DEFAULT_KEY, pattern);
    if clusterList.Err? {
      return Raise(clusterList.error);
    }
    var hits := clusterList.value;
    var msgList: seq<Text> := [];
    var i := 0;
    while i < |hits|
      invariant 0 <= i <= |hits|
      invariant AllOrNone(Entries(hits[..i], lang)) == Some(msgList)
    {
      var line := GenerateList(Some(hits[i].0), hits[i].1, lang, false);
      if line.None? {
        ListingRaises(hits, i, lang);
        return Raise(TypeError);
      }
      ListingGrowsAt(hits, i, lang, msgList);
      msgList := msgList + [line.value];
      i := i + 1;
    }
    assert hits[..i] == hits;
    ListingDone(hits, lang, msgList);
    if msgList != [] {
      out := Finish(Lines(msgList));
    } else {
      out := Finish([Line(T(lang, EMPTY_KEY))]);
    }
  }

  // ---------------------------------------------------------------------------
  // yesterday and its scheduled trigger

  /** The lines of the daily ranking: each entry with its own `rank` field, in
      the default locale (the source does not pass the session's locale on). */
  function DailyEntries(entries: seq<Node>): seq<Option<Text>>
  {
    seq(|entries|, i requires 0 <= i < |entries| => GenerateList(entries[i].rank, entries[i], DEFAULT_LANG, true))
  }

  /** The headline that opens the daily report. */
  function Headline(total: Totals, lang: Lang): Text
    requires total.bytes.Some?
  {
    Tr(lang, YESTERDAY_STATUS_KEY, map[Arg.Hits := OfInt(total.hits), Arg.Size := SizeVal(HumanSize(total.bytes.value))])
  }

  /** The text of a fetched report, or `None` where building it raises (no
      totals, no total byte count, no ranking, or an entry without bytes). */
  function Summary(rep: Report, lang: Lang): Option<seq<Text>> {
    if rep.total.None? || rep.total.value.bytes.None? || rep.rank.None? then None
    else
      match AllOrNone(DailyEntries(rep.rank.value))
      case None => None
      case Some(lines) => Some([Headline(rep.total.value, lang)] + lines)
  }

  /** What the text phase sends: the summary, or the single failure message when
      the fetch or the summary raised. */
  function TextPhase(fetched: Option<Report>, lang: Lang): seq<Text> {
    if fetched.Some? && Summary(fetched.value, lang).Some? then Summary(fetched.value, lang).value
    else [T(lang, YESTERDAY_FAILED_KEY)]
  }

  /** The chart requests of the second phase, or the exception it raises: the
      local `yesterday` is unbound after a failed fetch, `full` is unbound on the
      scheduled path, and byte2GB raises on a missing byte series. */
  function ChartPhase(fetched: Option<Report>, full: Option<bool>, lang: Lang): Result<seq<Chart>, Exc> {
    if fetched.None? then Err(UnboundLocalError("yesterday"))
    else if full.None? then Err(UnboundLocalError("full"))
    else
      var rep := fetched.value;
      var hitsLabel, bytesLabel := T(lang, HITS_LABEL_KEY), T(lang, BYTES_LABEL_KEY);
      if rep.bytes.None? then Err(TypeError)
      else if full.value then
        Ok([Single(rep.hits, hitsLabel, HITS_COLOR),
            Single(Some(Byte2GB(rep.bytes.value)), bytesLabel, BYTES_COLOR),
            Single(rep.rejected, T(lang, REJECTED_LABEL_KEY), REJECTED_COLOR)])
      else
        Ok([Dual(rep.hits, hitsLabel, HITS_COLOR, Byte2GB(rep.bytes.value), bytesLabel, BYTES_COLOR)])
  }

  /** A whole report run: the text to `dest`, then the charts to `dest`, unless
      the chart phase raises. */
  function ReportRun(dest: Dest, lang: Lang, full: Option<bool>, fetched: Option<Report>): Outcome {
    var text := Send(dest, Lines(TextPhase(fetched, lang)));
    match ChartPhase(fetched, full, lang)
    case Err(e) => Outcome([text], Some(e))
    case Ok(charts) => Outcome([text, Send(dest, Images(charts))], None)
  }

  /** One more daily entry formatted: the collected lines grow by it. */
  lemma DailyStep(entries: seq<Node>, i: nat, lines: seq<Text>)
    requires i < |entries| && AllOrNone(DailyEntries(entries)[..i]) == Some(lines)
    ensures var line := GenerateList(entries[i].rank, entries[i], DEFAULT_LANG, true);
      AllOrNone(DailyEntries(entries)[..i + 1]) == if line.Some? then Some(lines + [line.value]) else None
  {
    var xs := DailyEntries(entries);
    assert xs[..i + 1] == xs[..i] + [xs[i]];
    AllOrNoneSnoc(xs[..i], xs[i]);
  }

  /** Every daily entry formatted: the text phase is the headline and them. */
  lemma DailyDone(rep: Report, lang: Lang, lines: seq<Text>)
    requires rep.total.Some? && rep.total.value.bytes.Some? && rep.rank.Some?
    requires AllOrNone(DailyEntries(rep.rank.value)[..|rep.rank.value|]) == Some(lines)
    ensures TextPhase(Some(rep), lang) == [Headline(rep.total.value, lang)] + lines
  {
    assert DailyEntries(rep.rank.value)[..|rep.rank.value|] == DailyEntries(rep.rank.value);
  }

  /** A daily entry that fails to format: the text phase is the failure message. */
  lemma DailyFailed(rep: Report, lang: Lang, i: nat)
    requires rep.rank.Some? && i < |rep.rank.value| && rep.rank.value[i].bytes.None?
    ensures TextPhase(Some(rep), lang) == [T(lang, YESTERDAY_FAILED_KEY)]
  {
    assert DailyEntries(rep.rank.value)[i].None?;
  }

  /** The `try` block of `yesterday`: the headline and the daily entries, or the
      failure message once fetching or formatting raised. */
  method SummaryLines(fetched: Option<Report>, lang: Lang) returns (msgList: seq<Text>)
    ensures msgList == TextPhase(fetched, lang)
  {
    if fetched.None? || fetched.value.total.None? || fetched.value.total.value.bytes.None? || fetched.value.rank.None? {
      return [T(lang, YESTERDAY_FAILED_KEY)];
    }
    var rep := fetched.value;
    var entries := rep.rank.value;
    var head := Headline(rep.total.value, lang);
    var lines: seq<Text> := [];
    var i := 0;
    assert DailyEntries(entries)[..0] == [];
    while i < |entries|
      invariant 0 <= i <= |entries|
      invariant AllOrNone(DailyEntries(entries)[..i]) == Some(lines)
    {
      var cluster := entries[i];
      var line := GenerateList(cluster.rank, cluster, DEFAULT_LANG, true);
      DailyStep(entries, i, lines);
      if line.None? {
        DailyFailed(rep, lang, i);
        return [T(lang, YESTERDAY_FAILED_KEY)];
      }
      lines := lines + [line.value];
      i := i + 1;
    }
    DailyDone(rep, lang, lines);
    msgList := [head] + lines;
  }

  /** The body of `yesterday` once the destination, the locale and `full` (None
      while unbound) are fixed. */
  method RunReport(dest: Dest, lang: Lang, full: Option<bool>, fetched: Option<Report>) returns (out: Outcome)
    ensures out == ReportRun(dest, lang, full, fetched)
  {
    var msgList := SummaryLines(fetched, lang);
    var text := Send(dest, Lines(msgList));

    if fetched.None? {
      return Outcome([text], Some(UnboundLocalError("yesterday")));
    }
    var rep := fetched.value;
    var hitsLabel := T(lang, HITS_LABEL_KEY);
    var bytesLabel := T(lang, BYTES_LABEL_KEY);
    if full.None? {
      return Outcome([text], Some(UnboundLocalError("full")));
    }
    var charts: seq<Chart>;
    if full.value {
      var hitsFigure := Single(rep.hits, hitsLabel, HITS_COLOR);
      if rep.bytes.None? {
        return Outcome([text], Some(TypeError));
      }
      var bytesFigure := Single(Some(Byte2GB(rep.bytes.value)), bytesLabel, BYTES_COLOR);
      var rejectedFigure := Single(rep.rejected, T(lang, REJECTED_LABEL_KEY), REJECTED_COLOR);
      charts := [hitsFigure, bytesFigure, rejectedFigure];
    } else {
      if rep.bytes.None? {
        return Outcome([text], Some(TypeError));
      }
      charts := [Dual(rep.hits, hitsLabel, HITS_COLOR, Byte2GB(rep.bytes.value), bytesLabel, BYTES_COLOR)];
    }
    out := Outcome([text, Send(dest, Images(charts))], None);
  }

  /** The chat session of an interactive command: its locale and `--full`. */
  datatype Session = Session(lang: Lang, full: bool)

  /** yesterday: a reply to the session when there is one, otherwise a post to
      the subscriber channel in the default locale, with `full` never bound. */
  method Yesterday(msg: Option<Session>, fetched: Option<Report>) returns (out: Outcome)
    ensures msg.Some? ==> out == ReportRun(Reply, msg.value.lang, Some(msg.value.full), fetched)
    ensures msg.None? ==> out == ReportRun(Broadcast(RSS_TARGET), DEFAULT_LANG, None, fetched)
  {
    if msg.None? {
      out := RunReport(Broadcast(RSS_TARGET), DEFAULT_LANG, None, fetched);
    } else {
      out := RunReport(Reply, msg.value.lang, Some(msg.value.full), fetched);
    }
  }

  /** notify, the daily scheduled trigger, as written: it posts the text to the
      subscriber channel and then always raises, so no chart is ever posted. */
  method Notify(fetched: Option<Report>) returns (out: Outcome)
    ensures out == ReportRun(Broadcast(RSS_TARGET), DEFAULT_LANG, None, fetched)
    ensures |out.sent| == 1 && out.sent[0].dest == Broadcast(RSS_TARGET) && out.raised.Some?
  {
    out := Yesterday(None, fetched);
  }

  /** notify as the scheduled trigger is meant to behave: the report in full
      mode, posted to the subscriber channel. */
  method NotifyFull(fetched: Option<Report>) returns (out: Outcome)
    ensures out == ReportRun(Broadcast(RSS_TARGET), DEFAULT_LANG, Some(true), fetched)
    ensures fetched.Some? && fetched.value.bytes.Some? ==>
      |out.sent| == 2 && |out.sent[1].items| == 3 && out.sent[1].dest == Broadcast(RSS_TARGET)
  {
    out := RunReport(Broadcast(RSS_TARGET), DEFAULT_LANG, Some(true), fetched);
  }

  /** A report run sends to one destination only, text first. */
  lemma ReportDestination(dest: Dest, lang: Lang, full: Option<bool>, fetched: Option<Report>)
    ensures var out := ReportRun(dest, lang, full, fetched);
      && 1 <= |out.sent| <= 2
      && (forall i :: 0 <= i < |out.sent| ==> out.sent[i].dest == dest)
      && (forall i :: 0 <= i < |out.sent[0].items| ==> out.sent[0].items[i].Line?)
  {
  }

  /** A successful fetch and summary: the headline first, then one line per
      ranked entry, in order, each built from the entry's own rank. */
  lemma TextPhaseSummary(rep: Report, lang: Lang)
    requires Summary(rep, lang).Some?
    ensures var text := TextPhase(Some(rep), lang);
      && rep.total.Some? && rep.total.value.bytes.Some? && rep.rank.Some?
      && |text| == |rep.rank.value| + 1
      && text[0] == Headline(rep.total.value, lang)
      && forall i :: 0 <= i < |rep.rank.value| ==>
           Some(text[i + 1]) == GenerateList(rep.rank.value[i].rank, rep.rank.value[i], DEFAULT_LANG, true)
  {
    var lines := AllOrNone(DailyEntries(rep.rank.value)).value;
    assert TextPhase(Some(rep), lang) == [Headline(rep.total.value, lang)] + lines;
  }

  /** A fetch or summary that raises leaves exactly one message: the failure. */
  lemma TextPhaseFailure(fetched: Option<Report>, lang: Lang)
    requires fetched.None? || Summary(fetched.value, lang).None?
    ensures TextPhase(fetched, lang) == [T(lang, YESTERDAY_FAILED_KEY)]
  {
  }

  /** A failed fetch: one message holding the failure line, and no chart. */
  lemma FetchFailure(dest: Dest, lang: Lang, full: Option<bool>)
    ensures ReportRun(dest, lang, full, None) ==
      Outcome([Send(dest, [Line(T(lang, YESTERDAY_FAILED_KEY))])], Some(UnboundLocalError("yesterday")))
  {
    assert Lines([T(lang, YESTERDAY_FAILED_KEY)]) == [Line(T(lang, YESTERDAY_FAILED_KEY))];
  }

  /** Full mode requests three single-series charts, hits, gigabytes and
      rejections, in that order; otherwise one chart of hits against gigabytes. */
  lemma ChartSelection(rep: Report, full: bool, lang: Lang)
    requires rep.bytes.Some?
    ensures ChartPhase(Some(rep), Some(full), lang).Ok?
    ensures var charts := ChartPhase(Some(rep), Some(full), lang).value;
      full ==>
        && |charts| == 3
        && charts[0] == Single(rep.hits, T(lang, HITS_LABEL_KEY), HITS_COLOR)
        && charts[1].Single? && charts[1].series.Some? && charts[1].color == BYTES_COLOR
        && |charts[1].series.value| == |rep.bytes.value|
        && (forall i :: 0 <= i < |rep.bytes.value| ==> charts[1].series.value[i] * GIB == rep.bytes.value[i])
        && charts[2] == Single(rep.rejected, T(lang, REJECTED_LABEL_KEY), REJECTED_COLOR)
    ensures var charts := ChartPhase(Some(rep), Some(full), lang).value;
      !full ==>
        && |charts| == 1 && charts[0].Dual?
        && charts[0].bottom == rep.hits && charts[0].top == Byte2GB(rep.bytes.value)
  {
  }
}
