/** Feed documents and the state file, as values. */
module Model {
  import opened Text

  datatype Tunnel = Tunnel(id: string, name: string, enabled: bool, forced: bool, config: string)

  datatype FeedDocument = FeedDocument(id: string, endpoints: seq<string>, tunnels: seq<Tunnel>)

  datatype TunnelState = TunnelState(name: string, enabled: bool)

  /** What a feed has recorded about its tunnels, by tunnel id. */
  type Table = map<string, TunnelState>

  /** `tunnels` is None for a map that was never allocated: it is written as null and read back as null. */
  datatype FeedState = FeedState(
    lastReconciledRevision: string,
    ttl: Option<int>,
    cached: string,
    endpointOrder: seq<string>,
    tunnels: Option<Table>)

  const NO_FEED := FeedState("", None, "", [], None)

  datatype State = State(salt: string, setupURLMap: map<string, string>, feeds: map<string, FeedState>)

  ghost predicate DistinctIds(ts: seq<Tunnel>) {
    forall i, j :: 0 <= i < j < |ts| ==> ts[i].id != ts[j].id
  }

  function Ids(ts: seq<Tunnel>): set<string> {
    set i | 0 <= i < |ts| :: ts[i].id
  }

  /** The consequences of document validation that the client relies on. */
  ghost predicate ValidDocument(d: FeedDocument) {
    && !Blank(d.id)
    && d.endpoints != []
    && (forall e <- d.endpoints :: !Blank(e))
    && (forall t <- d.tunnels :: !Blank(t.id) && t.name != "" && Trimmed(t.name))
    && DistinctIds(d.tunnels)
  }

  /** Map lookup with the zero value for a missing feed. */
  function FeedAt(st: State, feedID: string): FeedState {
    if feedID in st.feeds then st.feeds[feedID] else NO_FEED
  }
}
