/** The JSON records the bot fetches, as explicit schemas.  A field the snapshot
    may lack is an `Option`: `None` is what `dict.get` returns for it.  Flags are
    plain booleans, because the source only tests their truth and a missing flag
    reads as false. */
module Records {
  import opened Wrappers

  /** One mirror node of the cluster list (and of the daily ranking, where it
      also carries its own `rank`). */
  datatype Node = Node(
    clusterId: Option<string>,
    clusterName: Option<string>,
    ownerName: Option<string>,
    sponsor: Option<string>,
    sponsorUrl: Option<string>,
    sponsorBanner: Option<string>,
    isOnline: bool,
    isBanned: bool,
    isProxy: bool,
    fullsize: bool,
    version: Option<string>,
    hits: Option<int>,
    bytes: Option<real>,       // None also stands for a non-numeric value
    bandwidth: Option<real>,
    createdAt: Option<real>,   // epoch milliseconds
    downTime: Option<real>,    // epoch milliseconds
    rank: Option<int>)

  /** `cluster.get(key)` for the keys a search may name.  Only string-valued
      fields can be searched; any other key gives `None`, as a non-string value
      fails in the regular-expression engine just as a missing one does. */
  function Field(n: Node, key: string): Option<string> {
    match key
    case "clusterId" => n.clusterId
    case "clusterName" => n.clusterName
    case "ownerName" => n.ownerName
    case "sponsor" => n.sponsor
    case "sponsorUrl" => n.sponsorUrl
    case "sponsorBanner" => n.sponsorBanner
    case "version" => n.version
    case _ => None
  }

  datatype Today = Today(hits: Option<int>, bytes: Option<real>)

  /** The dashboard snapshot of the `status` view. */
  datatype Dashboard = Dashboard(
    onlines: Option<int>,
    today: Option<Today>,
    sources: Option<int>,
    totalFiles: Option<int>,
    totalSize: Option<real>,
    startTime: Option<int>)    // epoch milliseconds

  /** One counter of the cache statistics, read by subscript: the key may be
      absent (the subscript raises KeyError), present with a JSON null (read as
      `None`), or present with a number. */
  datatype Counter = Absent | Null | Count(n: int)

  datatype CurseForgeStats = CurseForgeStats(mod: Counter, file: Counter, fingerprint: Counter)
  datatype ModrinthStats = ModrinthStats(project: Counter, version: Counter, file: Counter)
  datatype CdnStats = CdnStats(file: Counter)

  /** Cache statistics; a missing or null entry fails the subscript into it. */
  datatype CacheSnapshot = CacheSnapshot(
    curseforge: Option<CurseForgeStats>,
    modrinth: Option<ModrinthStats>,
    fileCdn: Option<CdnStats>)

  /** One upstream data source. */
  datatype Source = Source(
    name: Option<string>,
    count: Option<int>,
    lastUpdated: Option<string>,
    isFromPlugin: bool)

  datatype Totals = Totals(hits: Option<int>, bytes: Option<real>)

  /** Yesterday's report: totals, the ranked nodes and three hourly series. */
  datatype Report = Report(
    total: Option<Totals>,
    rank: Option<seq<Node>>,
    hits: Option<seq<real>>,
    bytes: Option<seq<real>>,
    rejected: Option<seq<real>>)

  /** The Python exceptions the modelled code can raise. */
  datatype Exc =
    | TypeError                        // None used as a number, a string or a list
    | AttributeError                   // attribute access on None
    | KeyError                         // a missing dictionary key
    | PatternError                     // re.error from re.compile
    | UnboundLocalError(name: string)  // a local read before any assignment
}
