/**
 * Runtime settings of the bridge (internal/config/config.go): the records
 * the YAML file decodes into, the required-field checks, the certificate /
 * key pairing rule, the `field` / `parent.child` rule for match fields, the
 * defaults filled in after validation and the display name of a route.
 * Durations are whole nanoseconds, as `time.Duration` is.
 */
module Config {
  import opened Wrappers
  import opened Text
  import Json
  import Engine

  const Second: int := 1_000_000_000
  /** `defaultCommitInterval`, set by Load when the file leaves it at zero. */
  const DefaultCommitInterval: int := 5 * Second
  const DefaultListenAddr: string := ":8080"
  const DefaultFlushInterval: int := 10 * Second

  datatype TLSConfig = TLSConfig(caFile: string, certFile: string, keyFile: string, insecureSkipVerify: bool)

  /** Brokers and an optional TLS block (None when the section is absent). */
  datatype ClusterConfig = ClusterConfig(brokers: seq<string>, tls: Option<TLSConfig>)

  datatype ReferenceFeed = ReferenceFeed(topic: string, matchFields: seq<string>)

  datatype Route = Route(name: string, sourceTopics: seq<string>, destinationTopic: string, referenceFeeds: seq<ReferenceFeed>)

  datatype HTTPServer = HTTPServer(listenAddr: string)

  datatype Storage = Storage(path: string, flushInterval: int)

  /** Why a cluster block is rejected. */
  datatype ClusterProblem = BrokersEmpty | KeyFileRequired | CertFileRequired

  /** Why a route is rejected; feeds are named by index or topic, fields by their text. */
  datatype RouteProblem =
    | SourceTopicsEmpty
    | DestinationTopicRequired
    | ReferenceFeedsEmpty
    | FeedTopicRequired(feedIndex: nat)
    | MatchFieldsEmpty(topic: string)
    | MatchFieldDepth(field: string)
    | MatchFieldInvalid(field: string)

  /** Why a configuration is rejected, with the prefix Validate wraps around it. */
  datatype ConfigError =
    | SourceCluster(cluster: ClusterProblem)
    | BridgeCluster(cluster: ClusterProblem)
    | ClientIdRequired
    | SourceGroupIdRequired
    | ReferenceGroupIdRequired
    | NoRoutes
    | InRoute(routeIndex: nat, route: RouteProblem)

  // ---------------------------------------------------------------------
  // Clusters and TLS
  // ---------------------------------------------------------------------

  /** A certificate and a key must be given together or not at all. */
  function ValidateTLS(t: TLSConfig): (r: Option<ClusterProblem>)
    ensures r.None? <==> (t.certFile == "" <==> t.keyFile == "")
    ensures r.Some? ==> r.value in {KeyFileRequired, CertFileRequired}
    ensures r == Some(KeyFileRequired) <==> t.certFile != "" && t.keyFile == ""
  {
    if t.certFile != "" && t.keyFile == "" then Some(KeyFileRequired)
    else if t.keyFile != "" && t.certFile == "" then Some(CertFileRequired)
    else None
  }

  /** A cluster needs at least one broker, and a TLS block, when present, must pass ValidateTLS. */
  function ValidateCluster(c: ClusterConfig): (r: Option<ClusterProblem>)
    ensures r.None? <==> |c.brokers| > 0 && (c.tls.None? || ValidateTLS(c.tls.value).None?)
    ensures |c.brokers| == 0 ==> r == Some(BrokersEmpty)
    ensures c.tls.None? && |c.brokers| > 0 ==> r.None?
    ensures |c.brokers| > 0 && c.tls.Some? ==> r == ValidateTLS(c.tls.value)
  {
    if |c.brokers| == 0 then Some(BrokersEmpty)
    else if c.tls.Some? then ValidateTLS(c.tls.value)
    else None
  }

  // ---------------------------------------------------------------------
  // Routes, feeds and match fields
  // ---------------------------------------------------------------------

  /**
   * A match field is split on '.'; more than two pieces is too deep, and an
   * empty piece (a leading, trailing or lone dot, or the empty field) is invalid.
   */
  function MatchFieldProblem(field: string): (r: Option<RouteProblem>)
    ensures r.Some? ==> r.value in {MatchFieldDepth(field), MatchFieldInvalid(field)}
  {
    var parts := Split(field, '.');
    if |parts| > 2 then Some(MatchFieldDepth(field))
    else if "" in parts then Some(MatchFieldInvalid(field))
    else None
  }

  /** With no dot, a field is accepted iff it is non-empty. */
  lemma MatchFieldNoDot(field: string)
    requires '.' !in field
    ensures MatchFieldProblem(field).None? <==> field != ""
    ensures MatchFieldProblem(field) != Some(MatchFieldDepth(field))
  {
    SplitNoSeparator(field, '.');
  }

  /** With one dot, a field is accepted iff the dot is neither first nor last. */
  lemma MatchFieldOneDot(field: string)
    requires Count(field, '.') == 1
    ensures MatchFieldProblem(field).None? <==> field[0] != '.' && field[|field| - 1] != '.'
    ensures MatchFieldProblem(field) != Some(MatchFieldDepth(field))
  {
    var parts := Split(field, '.');
    SplitJoin(field, '.');
    SplitTwo(field, '.');
    var p, q := parts[0], parts[1];
    assert '.' !in p && '.' !in q;
    assert field == p + ['.'] + q;
    if p != "" {
      assert field[0] == p[0];
    }
    if q != "" {
      assert field[|field| - 1] == q[|q| - 1];
    }
    assert "" in parts <==> p == "" || q == "";
  }

  /** Two or more dots are always the depth error. */
  lemma MatchFieldManyDots(field: string)
    requires Count(field, '.') >= 2
    ensures MatchFieldProblem(field) == Some(MatchFieldDepth(field))
  {
    SplitJoin(field, '.');
  }

  /**
   * A match field is accepted iff it is non-empty, holds at most one dot,
   * and neither starts nor ends with that dot; more than one dot is
   * exactly the depth error.
   */
  lemma MatchFieldAccepted(field: string)
    ensures MatchFieldProblem(field).None? <==>
      && field != ""
      && Count(field, '.') <= 1
      && field[0] != '.'
      && field[|field| - 1] != '.'
    ensures Count(field, '.') >= 2 <==> MatchFieldProblem(field) == Some(MatchFieldDepth(field))
  {
    CountZero(field, '.');
    if Count(field, '.') == 0 {
      MatchFieldNoDot(field);
    } else if Count(field, '.') == 1 {
      MatchFieldOneDot(field);
    } else {
      MatchFieldManyDots(field);
    }
  }

  /** A field that passes validation is the dotless key itself or exactly `parent.child`. */
  lemma AcceptedFieldShape(field: string)
    requires MatchFieldProblem(field).None?
    ensures '.' !in field ==> field != "" && Split(field, '.') == [field]
    ensures '.' in field ==> var parts := Split(field, '.');
      |parts| == 2 && parts[0] != "" && parts[1] != "" && '.' !in parts[0] && '.' !in parts[1]
      && field == parts[0] + "." + parts[1]
  {
    var parts := Split(field, '.');
    SplitJoin(field, '.');
    CountZero(field, '.');
    if '.' !in field {
      SplitNoSeparator(field, '.');
    } else {
      SplitTwo(field, '.');
    }
  }

  /**
   * A field accepted here never reaches the engine's "unsupported depth"
   * error: at lookup time it is either found or reported missing.
   */
  lemma AcceptedFieldHasSupportedDepth(payload: map<string, Json.Json>, field: string)
    requires MatchFieldProblem(field).None?
    ensures !Engine.LookupField(payload, field).Err? || !Engine.LookupField(payload, field).error.DepthUnsupported?
  {
    AcceptedFieldShape(field);
  }

  /** The first match field of `fields[i..]` that is rejected, if any. */
  function FieldsProblem(fields: seq<string>, i: nat): (r: Option<RouteProblem>)
    requires i <= |fields|
    ensures r.None? <==> forall k :: i <= k < |fields| ==> MatchFieldProblem(fields[k]).None?
    ensures r.Some? ==> exists k :: i <= k < |fields| && MatchFieldProblem(fields[k]) == r
                                   && forall j :: i <= j < k ==> MatchFieldProblem(fields[j]).None?
    decreases |fields| - i
  {
    if i == |fields| then None
    else
      var p := MatchFieldProblem(fields[i]);
      if p.Some? then p else FieldsProblem(fields, i + 1)
  }

  /** A feed needs a topic and at least one match field, each of them accepted. */
  function FeedProblem(feed: ReferenceFeed, feedIndex: nat): (r: Option<RouteProblem>)
    ensures r.None? <==> feed.topic != "" && |feed.matchFields| > 0
                         && forall k :: 0 <= k < |feed.matchFields| ==> MatchFieldProblem(feed.matchFields[k]).None?
    ensures feed.topic == "" ==> r == Some(FeedTopicRequired(feedIndex))
    ensures feed.topic != "" && |feed.matchFields| == 0 ==> r == Some(MatchFieldsEmpty(feed.topic))
    ensures feed.topic != "" && |feed.matchFields| > 0 ==> r == FieldsProblem(feed.matchFields, 0)
  {
    if feed.topic == "" then Some(FeedTopicRequired(feedIndex))
    else if |feed.matchFields| == 0 then Some(MatchFieldsEmpty(feed.topic))
    else FieldsProblem(feed.matchFields, 0)
  }

  /** The first feed of `feeds[i..]` that is rejected, if any. */
  function FeedsProblem(feeds: seq<ReferenceFeed>, i: nat): (r: Option<RouteProblem>)
    requires i <= |feeds|
    ensures r.None? <==> forall k :: i <= k < |feeds| ==> FeedProblem(feeds[k], k).None?
    ensures r.Some? ==> exists k :: i <= k < |feeds| && FeedProblem(feeds[k], k) == r
                                   && forall j :: i <= j < k ==> FeedProblem(feeds[j], j).None?
    decreases |feeds| - i
  {
    if i == |feeds| then None
    else
      var p := FeedProblem(feeds[i], i);
      if p.Some? then p
      else
        var rest := FeedsProblem(feeds, i + 1);
        assert rest.Some? ==> FeedProblem(feeds[i], i).None?;
        rest
  }

  /**
   * A route needs source topics, a destination topic and reference feeds,
   * and every feed must be accepted; the first failing check is reported.
   */
  function ValidateRoute(r: Route): (p: Option<RouteProblem>)
    ensures |r.sourceTopics| == 0 ==> p == Some(SourceTopicsEmpty)
    ensures |r.sourceTopics| > 0 && r.destinationTopic == "" ==> p == Some(DestinationTopicRequired)
    ensures |r.sourceTopics| > 0 && r.destinationTopic != "" && |r.referenceFeeds| == 0 ==> p == Some(ReferenceFeedsEmpty)
    ensures |r.sourceTopics| > 0 && r.destinationTopic != "" && |r.referenceFeeds| > 0 ==> p == FeedsProblem(r.referenceFeeds, 0)
  {
    if |r.sourceTopics| == 0 then Some(SourceTopicsEmpty)
    else if r.destinationTopic == "" then Some(DestinationTopicRequired)
    else if |r.referenceFeeds| == 0 then Some(ReferenceFeedsEmpty)
    else FeedsProblem(r.referenceFeeds, 0)
  }

  /**
   * A route is accepted iff it has source topics, a destination topic and
   * reference feeds, and every feed has a topic and accepted match fields.
   */
  lemma RouteAccepted(r: Route)
    ensures ValidateRoute(r).None? <==>
      && |r.sourceTopics| > 0
      && r.destinationTopic != ""
      && |r.referenceFeeds| > 0
      && forall k :: 0 <= k < |r.referenceFeeds| ==>
           && r.referenceFeeds[k].topic != ""
           && |r.referenceFeeds[k].matchFields| > 0
           && forall j :: 0 <= j < |r.referenceFeeds[k].matchFields| ==> MatchFieldProblem(r.referenceFeeds[k].matchFields[j]).None?
  {
    if |r.sourceTopics| > 0 && r.destinationTopic != "" && |r.referenceFeeds| > 0 {
      var q := FeedsProblem(r.referenceFeeds, 0);
      assert q.None? <==> forall k :: 0 <= k < |r.referenceFeeds| ==> FeedProblem(r.referenceFeeds[k], k).None?;
    }
  }

  /** The name logs use for a route: its own name, else its destination topic. */
  function DisplayName(r: Route): (n: string)
    ensures n == r.name || n == r.destinationTopic
    ensures n == "" <==> r.name == "" && r.destinationTopic == ""
    ensures r.name != "" ==> n == r.name
  {
    if r.name != "" then r.name else r.destinationTopic
  }

  /** Every route that validates has a non-empty display name. */
  lemma ValidRouteIsNamed(r: Route)
    requires ValidateRoute(r).None?
    ensures DisplayName(r) != ""
  {
  }

  /** The first route of `routes[i..]` that is rejected, tagged with its index. */
  function RoutesProblem(routes: seq<Route>, i: nat): (r: Option<ConfigError>)
    requires i <= |routes|
    ensures r.None? <==> forall k :: i <= k < |routes| ==> ValidateRoute(routes[k]).None?
    ensures r.Some? ==> exists k :: i <= k < |routes| && ValidateRoute(routes[k]).Some? && r == Some(InRoute(k, ValidateRoute(routes[k]).value))
                                   && forall j :: i <= j < k ==> ValidateRoute(routes[j]).None?
    decreases |routes| - i
  {
    if i == |routes| then None
    else
      var p := ValidateRoute(routes[i]);
      if p.Some? then Some(InRoute(i, p.value))
      else
        var rest := RoutesProblem(routes, i + 1);
        if rest.Some? then
          ghost var k :| i + 1 <= k < |routes| && ValidateRoute(routes[k]).Some? && rest == Some(InRoute(k, ValidateRoute(routes[k]).value))
                         && forall j :: i + 1 <= j < k ==> ValidateRoute(routes[j]).None?;
          assert forall j :: i <= j < k ==> ValidateRoute(routes[j]).None?;
          rest
        else rest
  }

  // ---------------------------------------------------------------------
  // The configuration record
  // ---------------------------------------------------------------------

  /** All runtime settings; Validate fills in two defaults in place. */
  class Config {
    var sourceCluster: ClusterConfig
    var bridgeCluster: ClusterConfig
    var clientId: string
    var sourceGroupId: string
    var referenceGroupId: string
    var commitInterval: int
    var routes: seq<Route>
    var http: HTTPServer
    var storage: Storage

    /** The record as the YAML decoder leaves it. */
    constructor (sourceCluster: ClusterConfig, bridgeCluster: ClusterConfig, clientId: string, sourceGroupId: string,
                 referenceGroupId: string, commitInterval: int, routes: seq<Route>, http: HTTPServer, storage: Storage)
      ensures this.sourceCluster == sourceCluster && this.bridgeCluster == bridgeCluster
      ensures this.clientId == clientId && this.sourceGroupId == sourceGroupId && this.referenceGroupId == referenceGroupId
      ensures this.commitInterval == commitInterval && this.routes == routes
      ensures this.http == http && this.storage == storage
    {
      this.sourceCluster := sourceCluster;
      this.bridgeCluster := bridgeCluster;
      this.clientId := clientId;
      this.sourceGroupId := sourceGroupId;
      this.referenceGroupId := referenceGroupId;
      this.commitInterval := commitInterval;
      this.routes := routes;
      this.http := http;
      this.storage := storage;
    }

    /**
     * The first problem Validate reports, checked in this order: source
     * cluster, bridge cluster, client id, the two group ids, at least one
     * route, then each route.
     */
    function Problem(): (r: Option<ConfigError>)
      reads this
      ensures r.None? <==>
        && ValidateCluster(sourceCluster).None?
        && ValidateCluster(bridgeCluster).None?
        && clientId != "" && sourceGroupId != "" && referenceGroupId != ""
        && |routes| > 0
        && forall k :: 0 <= k < |routes| ==> ValidateRoute(routes[k]).None?
      ensures |sourceCluster.brokers| == 0 ==> r == Some(SourceCluster(BrokersEmpty))
      ensures ValidateCluster(sourceCluster).None? && |bridgeCluster.brokers| == 0 ==> r == Some(BridgeCluster(BrokersEmpty))
      ensures ValidateCluster(sourceCluster).Some? ==> r == Some(SourceCluster(ValidateCluster(sourceCluster).value))
      ensures ValidateCluster(sourceCluster).None? && ValidateCluster(bridgeCluster).Some? ==>
        r == Some(BridgeCluster(ValidateCluster(bridgeCluster).value))
      ensures ValidateCluster(sourceCluster).None? && ValidateCluster(bridgeCluster).None? ==>
        && (clientId == "" ==> r == Some(ClientIdRequired))
        && (clientId != "" && sourceGroupId == "" ==> r == Some(SourceGroupIdRequired))
        && (clientId != "" && sourceGroupId != "" && referenceGroupId == "" ==> r == Some(ReferenceGroupIdRequired))
        && (clientId != "" && sourceGroupId != "" && referenceGroupId != "" && |routes| == 0 ==> r == Some(NoRoutes))
        && (clientId != "" && sourceGroupId != "" && referenceGroupId != "" && |routes| > 0 ==> r == RoutesProblem(routes, 0))
    {
      if ValidateCluster(sourceCluster).Some? then Some(SourceCluster(ValidateCluster(sourceCluster).value))
      else if ValidateCluster(bridgeCluster).Some? then Some(BridgeCluster(ValidateCluster(bridgeCluster).value))
      else if clientId == "" then Some(ClientIdRequired)
      else if sourceGroupId == "" then Some(SourceGroupIdRequired)
      else if referenceGroupId == "" then Some(ReferenceGroupIdRequired)
      else if |routes| == 0 then Some(NoRoutes)
      else RoutesProblem(routes, 0)
    }

    /**
     * Checks every required setting; only when all pass, an empty listen
     * address and a zero flush interval are replaced by their defaults.
     * Nothing else is written.
     */
    method Validate() returns (err: Option<ConfigError>)
      modifies this
      ensures err == old(Problem())
      ensures sourceCluster == old(sourceCluster) && bridgeCluster == old(bridgeCluster)
      ensures clientId == old(clientId) && sourceGroupId == old(sourceGroupId) && referenceGroupId == old(referenceGroupId)
      ensures commitInterval == old(commitInterval) && routes == old(routes)
      ensures err.Some? ==> http == old(http) && storage == old(storage)
      ensures err.None? ==> http.listenAddr == (if old(http.listenAddr) == "" then DefaultListenAddr else old(http.listenAddr))
      ensures err.None? ==> storage.path == old(storage.path)
      ensures err.None? ==> storage.flushInterval == (if old(storage.flushInterval) == 0 then DefaultFlushInterval else old(storage.flushInterval))
      ensures err.None? ==> http.listenAddr != "" && storage.flushInterval != 0
    {
      var e := ValidateCluster(sourceCluster);
      if e.Some? {
        return Some(SourceCluster(e.value));
      }
      e := ValidateCluster(bridgeCluster);
      if e.Some? {
        return Some(BridgeCluster(e.value));
      }
      if clientId == "" {
        return Some(ClientIdRequired);
      }
      if sourceGroupId == "" {
        return Some(SourceGroupIdRequired);
      }
      if referenceGroupId == "" {
        return Some(ReferenceGroupIdRequired);
      }
      if |routes| == 0 {
        return Some(NoRoutes);
      }
      var i := 0;
      while i < |routes|
        invariant 0 <= i <= |routes|
        invariant RoutesProblem(routes, i) == Problem()
      {
        var p := ValidateRoute(routes[i]);
        if p.Some? {
          return Some(InRoute(i, p.value));
        }
        i := i + 1;
      }
      if http.listenAddr == "" {
        http := http.(listenAddr := DefaultListenAddr);
      }
      if storage.flushInterval == 0 {
        storage := storage.(flushInterval := DefaultFlushInterval);
      }
      return None;
    }
  }

  /**
   * What Load does once the file is decoded: a zero commit interval
   * becomes five seconds, then the record is validated and returned only
   * when it passes.
   */
  method Load(cfg: Config) returns (r: Result<Config, ConfigError>)
    modifies cfg
    ensures cfg.commitInterval == (if old(cfg.commitInterval) == 0 then DefaultCommitInterval else old(cfg.commitInterval))
    ensures r.Ok? <==> old(cfg.Problem()).None?
    ensures r.Err? ==> r.error == old(cfg.Problem()).value
    ensures r.Ok? ==> r.value == cfg
    ensures cfg.commitInterval != 0
    ensures cfg.sourceCluster == old(cfg.sourceCluster) && cfg.bridgeCluster == old(cfg.bridgeCluster)
    ensures cfg.clientId == old(cfg.clientId) && cfg.sourceGroupId == old(cfg.sourceGroupId) && cfg.referenceGroupId == old(cfg.referenceGroupId)
    ensures cfg.routes == old(cfg.routes)
    ensures r.Err? ==> cfg.http == old(cfg.http) && cfg.storage == old(cfg.storage)
    ensures r.Ok? ==> cfg.http.listenAddr == (if old(cfg.http.listenAddr) == "" then DefaultListenAddr else old(cfg.http.listenAddr))
    ensures r.Ok? ==> cfg.storage.path == old(cfg.storage.path)
    ensures r.Ok? ==> cfg.storage.flushInterval == (if old(cfg.storage.flushInterval) == 0 then DefaultFlushInterval else old(cfg.storage.flushInterval))
  {
    if cfg.commitInterval == 0 {
      cfg.commitInterval := DefaultCommitInterval;
    }
    var err := cfg.Validate();
    if err.Some? {
      return Err(err.value);
    }
    return Ok(cfg);
  }
}
